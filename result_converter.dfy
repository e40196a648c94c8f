/** `ResultConverter.api_result_to_dict`: flattens a chat-completion response (a dict decoded
    from JSON, with the caller's prompt attached under "prompt") into the flat dict that the
    usage store persists. Every lookup is a plain subscription; the first one that raises
    KeyError, IndexError or TypeError aborts the whole conversion with a TypeError. */
module ResultConverter {
  import opened Wrappers
  import opened JsonValue
  import opened Exceptions

  /** The keys of the output dict, in the order of the dict literal. */
  const OutputKeys: seq<string> := [
    "usage_id", "object", "created", "model", "system_fingerprint", "prompt", "completion",
    "prompt_tokens", "completion_tokens", "total_tokens", "cached_tokens", "cache_hit_tokens",
    "cache_miss_tokens", "finish_reason", "logprobs"]

  /** For each output key, the chain of subscriptions on the response that yields its value. */
  const FieldPaths: seq<seq<Key>> := [
    [Name("id")],
    [Name("object")],
    [Name("created")],
    [Name("model")],
    [Name("system_fingerprint")],
    [Name("prompt")],
    [Name("choices"), Index(0), Name("message"), Name("content")],
    [Name("usage"), Name("prompt_tokens")],
    [Name("usage"), Name("completion_tokens")],
    [Name("usage"), Name("total_tokens")],
    [Name("usage"), Name("prompt_tokens_details"), Name("cached_tokens")],
    [Name("usage"), Name("prompt_cache_hit_tokens")],
    [Name("usage"), Name("prompt_cache_miss_tokens")],
    [Name("choices"), Index(0), Name("finish_reason")],
    [Name("choices"), Index(0), Name("logprobs")]]

  /** The lookups in the order Python performs them: the two local bindings, then the values
      of the dict literal from top to bottom. */
  const EvalOrder: seq<seq<Key>> := [[Name("usage")], [Name("choices"), Index(0)]] + FieldPaths

  /** Follow a chain of subscriptions: `v[p[0]][p[1]]...`. */
  function Path(v: Json, p: seq<Key>): Result<Json, LookupFault>
    decreases |p|
  {
    if p == [] then Success(v)
    else
      var w :- Subscript(v, p[0]);
      Path(w, p[1..])
  }

  /** The fault of the first chain among `paths[i..j]` that fails, if any. */
  function FaultIn(v: Json, paths: seq<seq<Key>>, i: nat, j: nat): Option<LookupFault>
    requires i <= j <= |paths|
    decreases j - i
  {
    if i == j then None
    else if Path(v, paths[i]).Failure? then Some(Path(v, paths[i]).error)
    else FaultIn(v, paths, i + 1, j)
  }

  /** The first fault of a run of chains is in its first part, or else in its second. */
  lemma {:induction false} FaultInSplit(v: Json, paths: seq<seq<Key>>, i: nat, j: nat, k: nat)
    requires i <= j <= k <= |paths|
    ensures FaultIn(v, paths, i, k) == if FaultIn(v, paths, i, j).Some? then FaultIn(v, paths, i, j) else FaultIn(v, paths, j, k)
    decreases j - i
  {
    if i < j {
      FaultInSplit(v, paths, i + 1, j, k);
    }
  }

  const MalformedText: string := "Resultado da API malformado ou incompleto: "

  /** The TypeError that the except clause raises in place of the lookup fault. */
  function Malformed(f: LookupFault): PyException
  {
    PyException(TypeError, MalformedText + FaultText(f))
  }

  /** The dict literal: pairs each output key with the value computed for it. */
  function WithOutputKeys(values: seq<Json>): (d: Dict)
    requires |values| == |OutputKeys|
    ensures Keys(d) == OutputKeys
    ensures forall i :: 0 <= i < |d| ==> d[i] == (OutputKeys[i], values[i])
  {
    seq(|OutputKeys|, i requires 0 <= i < |OutputKeys| => (OutputKeys[i], values[i]))
  }

  lemma OutputKeysDistinct()
    ensures forall i, j :: 0 <= i < j < |OutputKeys| ==> OutputKeys[i] != OutputKeys[j]
  {
  }

  /** The body of the try block, in Python's evaluation order: the two local bindings, then
      the values of the dict literal from top to bottom. */
  function Extract(result: Json): Result<Dict, LookupFault>
  {
    var usage :- Subscript(result, Name("usage"));
    var choices :- Subscript(result, Name("choices"));
    var choice :- Subscript(choices, Index(0));
    var top :- TopLevelValues(result);
    var completion :- CompletionValue(choice);
    var tokens :- TokenValues(usage);
    var ending :- EndingValues(choice);
    Success(WithOutputKeys(top + [completion] + tokens + ending))
  }

  /** `id`, `object`, `created`, `model`, `system_fingerprint` and `prompt` of the response. */
  function TopLevelValues(result: Json): (r: Result<seq<Json>, LookupFault>)
    ensures r.Success? ==> |r.value| == 6
  {
    var id :- Subscript(result, Name("id"));
    var obj :- Subscript(result, Name("object"));
    var created :- Subscript(result, Name("created"));
    var model :- Subscript(result, Name("model"));
    var fingerprint :- Subscript(result, Name("system_fingerprint"));
    var prompt :- Subscript(result, Name("prompt"));
    Success([id, obj, created, model, fingerprint, prompt])
  }

  /** `choices_dict["message"]["content"]`. */
  function CompletionValue(choice: Json): Result<Json, LookupFault>
  {
    var message :- Subscript(choice, Name("message"));
    Subscript(message, Name("content"))
  }

  /** The six token counts of the usage sub-dict; the cached count sits one level deeper. */
  function TokenValues(usage: Json): (r: Result<seq<Json>, LookupFault>)
    ensures r.Success? ==> |r.value| == 6
  {
    var promptTokens :- Subscript(usage, Name("prompt_tokens"));
    var completionTokens :- Subscript(usage, Name("completion_tokens"));
    var totalTokens :- Subscript(usage, Name("total_tokens"));
    var details :- Subscript(usage, Name("prompt_tokens_details"));
    var cached :- Subscript(details, Name("cached_tokens"));
    var hit :- Subscript(usage, Name("prompt_cache_hit_tokens"));
    var miss :- Subscript(usage, Name("prompt_cache_miss_tokens"));
    Success([promptTokens, completionTokens, totalTokens, cached, hit, miss])
  }

  /** `finish_reason` and `logprobs` of the first choice. */
  function EndingValues(choice: Json): (r: Result<seq<Json>, LookupFault>)
    ensures r.Success? ==> |r.value| == 2
  {
    var finish :- Subscript(choice, Name("finish_reason"));
    var logprobs :- Subscript(choice, Name("logprobs"));
    Success([finish, logprobs])
  }

  /** `api_result_to_dict(result)`: the flat dict, or the TypeError it raises. */
  function ApiResultToDict(result: Json): (r: Result<Dict, PyException>)
    ensures r.Success? ==> Keys(r.value) == OutputKeys && DistinctKeys(r.value)
    ensures r.Failure? ==> r.error.kind == TypeError
  {
    OutputKeysDistinct();
    Extract(result).MapFailure(Malformed)
  }

  lemma PathOne(v: Json, a: Key)
    ensures Path(v, [a]) == Subscript(v, a)
  {
    assert [a][1..] == [];
  }

  lemma PathCons(v: Json, a: Key, rest: seq<Key>)
    ensures Path(v, [a] + rest) ==
            if Subscript(v, a).Failure? then Failure(Subscript(v, a).error)
            else Path(Subscript(v, a).value, rest)
  {
    assert ([a] + rest)[0] == a;
    assert ([a] + rest)[1..] == rest;
  }

  /** The chains of the six top-level output fields, written out. */
  lemma TopLevelPathsUnfolded(result: Json)
    ensures Path(result, FieldPaths[0]) == Subscript(result, Name("id"))
    ensures Path(result, FieldPaths[1]) == Subscript(result, Name("object"))
    ensures Path(result, FieldPaths[2]) == Subscript(result, Name("created"))
    ensures Path(result, FieldPaths[3]) == Subscript(result, Name("model"))
    ensures Path(result, FieldPaths[4]) == Subscript(result, Name("system_fingerprint"))
    ensures Path(result, FieldPaths[5]) == Subscript(result, Name("prompt"))
  {
    assert FieldPaths[0] == [Name("id")] && FieldPaths[1] == [Name("object")] && FieldPaths[2] == [Name("created")];
    assert FieldPaths[3] == [Name("model")] && FieldPaths[4] == [Name("system_fingerprint")] && FieldPaths[5] == [Name("prompt")];
    PathOne(result, Name("id"));
    PathOne(result, Name("object"));
    PathOne(result, Name("created"));
    PathOne(result, Name("model"));
    PathOne(result, Name("system_fingerprint"));
    PathOne(result, Name("prompt"));
  }

  /** The chains through `choices[0]`, written out. */
  lemma ChoicePathsUnfolded(result: Json)
    ensures Path(result, FieldPaths[6]) == Then(Then(Then(Subscript(result, Name("choices")), Index(0)), Name("message")), Name("content"))
    ensures Path(result, FieldPaths[13]) == Then(Then(Subscript(result, Name("choices")), Index(0)), Name("finish_reason"))
    ensures Path(result, FieldPaths[14]) == Then(Then(Subscript(result, Name("choices")), Index(0)), Name("logprobs"))
  {
    assert FieldPaths[6] == [Name("choices"), Index(0)] + [Name("message"), Name("content")];
    assert FieldPaths[13] == [Name("choices"), Index(0)] + [Name("finish_reason")];
    assert FieldPaths[14] == [Name("choices"), Index(0)] + [Name("logprobs")];
    var choice := Then(Subscript(result, Name("choices")), Index(0));
    PathThen(result, Name("choices"), Index(0), [Name("message"), Name("content")]);
    PathThen(result, Name("choices"), Index(0), [Name("finish_reason")]);
    PathThen(result, Name("choices"), Index(0), [Name("logprobs")]);
    if choice.Success? {
      PathCons(choice.value, Name("message"), [Name("content")]);
      PathOne(choice.value, Name("finish_reason"));
      PathOne(choice.value, Name("logprobs"));
      var message := Subscript(choice.value, Name("message"));
      if message.Success? {
        PathOne(message.value, Name("content"));
      }
    }
  }

  /** The chains through `usage`, written out. */
  lemma UsagePathsUnfolded(result: Json)
    ensures Path(result, FieldPaths[7]) == Then(Subscript(result, Name("usage")), Name("prompt_tokens"))
    ensures Path(result, FieldPaths[8]) == Then(Subscript(result, Name("usage")), Name("completion_tokens"))
    ensures Path(result, FieldPaths[9]) == Then(Subscript(result, Name("usage")), Name("total_tokens"))
    ensures Path(result, FieldPaths[10]) == Then(Then(Subscript(result, Name("usage")), Name("prompt_tokens_details")), Name("cached_tokens"))
    ensures Path(result, FieldPaths[11]) == Then(Subscript(result, Name("usage")), Name("prompt_cache_hit_tokens"))
    ensures Path(result, FieldPaths[12]) == Then(Subscript(result, Name("usage")), Name("prompt_cache_miss_tokens"))
  {
    assert FieldPaths[7] == [Name("usage")] + [Name("prompt_tokens")];
    assert FieldPaths[8] == [Name("usage")] + [Name("completion_tokens")];
    assert FieldPaths[9] == [Name("usage")] + [Name("total_tokens")];
    assert FieldPaths[10] == [Name("usage")] + [Name("prompt_tokens_details"), Name("cached_tokens")];
    assert FieldPaths[11] == [Name("usage")] + [Name("prompt_cache_hit_tokens")];
    assert FieldPaths[12] == [Name("usage")] + [Name("prompt_cache_miss_tokens")];
    var usage := Subscript(result, Name("usage"));
    PathCons(result, Name("usage"), [Name("prompt_tokens")]);
    PathCons(result, Name("usage"), [Name("completion_tokens")]);
    PathCons(result, Name("usage"), [Name("total_tokens")]);
    PathCons(result, Name("usage"), [Name("prompt_tokens_details"), Name("cached_tokens")]);
    PathCons(result, Name("usage"), [Name("prompt_cache_hit_tokens")]);
    PathCons(result, Name("usage"), [Name("prompt_cache_miss_tokens")]);
    if usage.Success? {
      PathOne(usage.value, Name("prompt_tokens"));
      PathOne(usage.value, Name("completion_tokens"));
      PathOne(usage.value, Name("total_tokens"));
      PathCons(usage.value, Name("prompt_tokens_details"), [Name("cached_tokens")]);
      PathOne(usage.value, Name("prompt_cache_hit_tokens"));
      PathOne(usage.value, Name("prompt_cache_miss_tokens"));
      var details := Subscript(usage.value, Name("prompt_tokens_details"));
      if details.Success? {
        PathOne(details.value, Name("cached_tokens"));
      }
    }
  }

  /** One more subscription on the outcome of the previous ones. */
  function Then(r: Result<Json, LookupFault>, k: Key): Result<Json, LookupFault>
  {
    if r.Failure? then r else Subscript(r.value, k)
  }

  lemma PathThen(v: Json, a: Key, b: Key, rest: seq<Key>)
    ensures Path(v, [a, b] + rest) ==
            if Then(Subscript(v, a), b).Failure? then Then(Subscript(v, a), b)
            else Path(Then(Subscript(v, a), b).value, rest)
  {
    assert [a, b] + rest == [a] + ([b] + rest);
    PathCons(v, a, [b] + rest);
    if Subscript(v, a).Success? {
      PathCons(Subscript(v, a).value, b, rest);
    }
  }

  /** The outcome of the chain of output field `i`. */
  function FieldPath(result: Json, i: nat): Result<Json, LookupFault>
    requires i < |FieldPaths|
  {
    Path(result, FieldPaths[i])
  }

  lemma TopLevelByPaths(result: Json)
    ensures TopLevelValues(result).Success? <==>
              FieldPath(result, 0).Success? && FieldPath(result, 1).Success? && FieldPath(result, 2).Success? &&
              FieldPath(result, 3).Success? && FieldPath(result, 4).Success? && FieldPath(result, 5).Success?
    ensures TopLevelValues(result).Success? ==>
              TopLevelValues(result).value ==
                [FieldPath(result, 0).value, FieldPath(result, 1).value, FieldPath(result, 2).value,
                 FieldPath(result, 3).value, FieldPath(result, 4).value, FieldPath(result, 5).value]
  {
    TopLevelPathsUnfolded(result);
  }

  lemma TokensByPaths(result: Json)
    requires Subscript(result, Name("usage")).Success?
    ensures TokenValues(Subscript(result, Name("usage")).value).Success? <==>
              FieldPath(result, 7).Success? && FieldPath(result, 8).Success? && FieldPath(result, 9).Success? &&
              FieldPath(result, 10).Success? && FieldPath(result, 11).Success? && FieldPath(result, 12).Success?
    ensures TokenValues(Subscript(result, Name("usage")).value).Success? ==>
              TokenValues(Subscript(result, Name("usage")).value).value ==
                [FieldPath(result, 7).value, FieldPath(result, 8).value, FieldPath(result, 9).value,
                 FieldPath(result, 10).value, FieldPath(result, 11).value, FieldPath(result, 12).value]
  {
    UsagePathsUnfolded(result);
  }

  lemma ChoiceByPaths(result: Json)
    requires Then(Subscript(result, Name("choices")), Index(0)).Success?
    ensures CompletionValue(Then(Subscript(result, Name("choices")), Index(0)).value) == FieldPath(result, 6)
    ensures EndingValues(Then(Subscript(result, Name("choices")), Index(0)).value).Success? <==>
              FieldPath(result, 13).Success? && FieldPath(result, 14).Success?
    ensures EndingValues(Then(Subscript(result, Name("choices")), Index(0)).value).Success? ==>
              EndingValues(Then(Subscript(result, Name("choices")), Index(0)).value).value ==
                [FieldPath(result, 13).value, FieldPath(result, 14).value]
  {
    ChoicePathsUnfolded(result);
  }

  /** Whether the chains of all output fields succeed. */
  predicate AllFieldsResolve(result: Json)
  {
    forall i :: 0 <= i < |FieldPaths| ==> FieldPath(result, i).Success?
  }

  /** The values at the ends of the chains of all output fields, in output order. */
  function AllFieldValues(result: Json): (vs: seq<Json>)
    requires AllFieldsResolve(result)
    ensures |vs| == |FieldPaths|
    ensures forall i :: 0 <= i < |FieldPaths| ==> vs[i] == FieldPath(result, i).value
  {
    seq(|FieldPaths|, i requires 0 <= i < |FieldPaths| && AllFieldsResolve(result) => FieldPath(result, i).value)
  }

  lemma AllFieldsResolveFromEach(result: Json)
    requires FieldPath(result, 0).Success? && FieldPath(result, 1).Success? && FieldPath(result, 2).Success?
    requires FieldPath(result, 3).Success? && FieldPath(result, 4).Success? && FieldPath(result, 5).Success?
    requires FieldPath(result, 6).Success? && FieldPath(result, 7).Success? && FieldPath(result, 8).Success?
    requires FieldPath(result, 9).Success? && FieldPath(result, 10).Success? && FieldPath(result, 11).Success?
    requires FieldPath(result, 12).Success? && FieldPath(result, 13).Success? && FieldPath(result, 14).Success?
    ensures AllFieldsResolve(result)
  {
    forall i | 0 <= i < |FieldPaths| ensures FieldPath(result, i).Success? {
      if i < 5 {
        assert i == 0 || i == 1 || i == 2 || i == 3 || i == 4;
      } else if i < 10 {
        assert i == 5 || i == 6 || i == 7 || i == 8 || i == 9;
      } else {
        assert i == 10 || i == 11 || i == 12 || i == 13 || i == 14;
      }
    }
  }

  lemma ExtractSucceedsWhenFieldsResolve(result: Json)
    requires AllFieldsResolve(result)
    ensures Extract(result).Success?
  {
    ChoicePathsUnfolded(result);
    UsagePathsUnfolded(result);
    TopLevelByPaths(result);
    assert FieldPath(result, 6).Success? && FieldPath(result, 7).Success?;
    ChoiceByPaths(result);
    TokensByPaths(result);
    assert FieldPath(result, 13).Success? && FieldPath(result, 14).Success?;
    assert FieldPath(result, 8).Success? && FieldPath(result, 9).Success? && FieldPath(result, 10).Success?;
    assert FieldPath(result, 11).Success? && FieldPath(result, 12).Success?;
    assert FieldPath(result, 0).Success? && FieldPath(result, 1).Success? && FieldPath(result, 2).Success?;
    assert FieldPath(result, 3).Success? && FieldPath(result, 4).Success? && FieldPath(result, 5).Success?;
  }

  /** The outcome of a successful conversion, group by group. */
  lemma ExtractGroups(result: Json)
    requires Extract(result).Success?
    ensures Subscript(result, Name("usage")).Success?
    ensures Then(Subscript(result, Name("choices")), Index(0)).Success?
    ensures TopLevelValues(result).Success?
    ensures CompletionValue(Then(Subscript(result, Name("choices")), Index(0)).value).Success?
    ensures TokenValues(Subscript(result, Name("usage")).value).Success?
    ensures EndingValues(Then(Subscript(result, Name("choices")), Index(0)).value).Success?
    ensures Extract(result).value ==
              WithOutputKeys(TopLevelValues(result).value
                             + [CompletionValue(Then(Subscript(result, Name("choices")), Index(0)).value).value]
                             + TokenValues(Subscript(result, Name("usage")).value).value
                             + EndingValues(Then(Subscript(result, Name("choices")), Index(0)).value).value)
  {
  }

  lemma FieldsResolveWhenExtractSucceeds(result: Json)
    requires Extract(result).Success?
    ensures AllFieldsResolve(result)
    ensures Extract(result).value == WithOutputKeys(AllFieldValues(result))
  {
    ExtractGroups(result);
    TopLevelByPaths(result);
    ChoiceByPaths(result);
    TokensByPaths(result);
    AllFieldsResolveFromEach(result);
    var vs := AllFieldValues(result);
    GroupsMakeValues(TopLevelValues(result).value, FieldPath(result, 6).value,
                     TokenValues(Subscript(result, Name("usage")).value).value,
                     EndingValues(Then(Subscript(result, Name("choices")), Index(0)).value).value, vs);
  }

  /** The four groups of values, one after the other, are the values in output order. */
  lemma GroupsMakeValues(top: seq<Json>, completion: Json, tokens: seq<Json>, ending: seq<Json>, vs: seq<Json>)
    requires |vs| == 15
    requires top == [vs[0], vs[1], vs[2], vs[3], vs[4], vs[5]] && completion == vs[6]
    requires tokens == [vs[7], vs[8], vs[9], vs[10], vs[11], vs[12]] && ending == [vs[13], vs[14]]
    ensures top + [completion] + tokens + ending == vs
  {
    var all := top + [completion] + tokens + ending;
    forall i | 0 <= i < 15 ensures all[i] == vs[i] {
      if i < 6 {
        assert all[i] == top[i];
      } else if i == 6 {
      } else if i < 13 {
        assert all[i] == tokens[i - 7];
      } else {
        assert all[i] == ending[i - 13];
      }
    }
  }

  /** The conversion succeeds exactly when the chain of subscriptions of every output field
      succeeds, and the output then pairs each key with the end of its chain. */
  lemma ApiResultToDictByPaths(result: Json)
    ensures ApiResultToDict(result).Success? <==> AllFieldsResolve(result)
    ensures ApiResultToDict(result).Success? ==>
              ApiResultToDict(result).value == WithOutputKeys(AllFieldValues(result))
  {
    if AllFieldsResolve(result) {
      ExtractSucceedsWhenFieldsResolve(result);
    }
    if Extract(result).Success? {
      FieldsResolveWhenExtractSucceeds(result);
    }
  }

  lemma EvalOrderFields()
    ensures |EvalOrder| == 17
    ensures EvalOrder[0] == [Name("usage")] && EvalOrder[1] == [Name("choices"), Index(0)]
    ensures forall i :: 0 <= i < |FieldPaths| ==> EvalOrder[i + 2] == FieldPaths[i]
  {
  }

  /** `usage_dict = result["usage"]` and `choices_dict = result["choices"][0]`. */
  lemma BindingsFault(result: Json)
    ensures Subscript(result, Name("usage")).Failure? ==>
              FaultIn(result, EvalOrder, 0, 2) == Some(Subscript(result, Name("usage")).error)
    ensures Subscript(result, Name("usage")).Success? && Then(Subscript(result, Name("choices")), Index(0)).Failure? ==>
              FaultIn(result, EvalOrder, 0, 2) == Some(Then(Subscript(result, Name("choices")), Index(0)).error)
    ensures FaultIn(result, EvalOrder, 0, 2).None? <==>
              Subscript(result, Name("usage")).Success? && Then(Subscript(result, Name("choices")), Index(0)).Success?
  {
    EvalOrderFields();
    PathOne(result, Name("usage"));
    PathThen(result, Name("choices"), Index(0), []);
    var choice := Then(Subscript(result, Name("choices")), Index(0));
    if choice.Success? {
      assert Path(choice.value, []) == Success(choice.value);
    }
  }

  /** The six top-level lookups fail, if at all, at the first failing one. */
  lemma TopLevelFault(result: Json)
    ensures TopLevelValues(result).Failure? <==> FaultIn(result, EvalOrder, 2, 8).Some?
    ensures TopLevelValues(result).Failure? ==> FaultIn(result, EvalOrder, 2, 8) == Some(TopLevelValues(result).error)
  {
    EvalOrderFields();
    TopLevelPathsUnfolded(result);
    assert EvalOrder[2] == FieldPaths[0] && EvalOrder[3] == FieldPaths[1] && EvalOrder[4] == FieldPaths[2];
    assert EvalOrder[5] == FieldPaths[3] && EvalOrder[6] == FieldPaths[4] && EvalOrder[7] == FieldPaths[5];
  }

  /** The lookups through `usage_dict` fail, if at all, at the first failing one. */
  lemma TokensFault(result: Json)
    requires Subscript(result, Name("usage")).Success?
    ensures TokenValues(Subscript(result, Name("usage")).value).Failure? <==> FaultIn(result, EvalOrder, 9, 15).Some?
    ensures TokenValues(Subscript(result, Name("usage")).value).Failure? ==>
              FaultIn(result, EvalOrder, 9, 15) == Some(TokenValues(Subscript(result, Name("usage")).value).error)
  {
    EvalOrderFields();
    UsagePathsUnfolded(result);
    assert EvalOrder[9] == FieldPaths[7] && EvalOrder[10] == FieldPaths[8] && EvalOrder[11] == FieldPaths[9];
    assert EvalOrder[12] == FieldPaths[10] && EvalOrder[13] == FieldPaths[11] && EvalOrder[14] == FieldPaths[12];
  }

  /** The lookups through `choices_dict` fail, if at all, at the first failing one. */
  lemma ChoiceFault(result: Json)
    requires Then(Subscript(result, Name("choices")), Index(0)).Success?
    ensures CompletionValue(Then(Subscript(result, Name("choices")), Index(0)).value).Failure? <==>
              FaultIn(result, EvalOrder, 8, 9).Some?
    ensures CompletionValue(Then(Subscript(result, Name("choices")), Index(0)).value).Failure? ==>
              FaultIn(result, EvalOrder, 8, 9) == Some(CompletionValue(Then(Subscript(result, Name("choices")), Index(0)).value).error)
    ensures EndingValues(Then(Subscript(result, Name("choices")), Index(0)).value).Failure? <==>
              FaultIn(result, EvalOrder, 15, 17).Some?
    ensures EndingValues(Then(Subscript(result, Name("choices")), Index(0)).value).Failure? ==>
              FaultIn(result, EvalOrder, 15, 17) == Some(EndingValues(Then(Subscript(result, Name("choices")), Index(0)).value).error)
  {
    EvalOrderFields();
    ChoicePathsUnfolded(result);
    assert EvalOrder[8] == FieldPaths[6] && EvalOrder[15] == FieldPaths[13] && EvalOrder[16] == FieldPaths[14];
  }

  /** The conversion fails exactly when some lookup of the try block fails, and the TypeError
      then carries the text of the first lookup to fail in Python's evaluation order. */
  lemma FailureIsFirstFault(result: Json)
    ensures ApiResultToDict(result).Failure? <==> FaultIn(result, EvalOrder, 0, |EvalOrder|).Some?
    ensures ApiResultToDict(result).Failure? ==>
              ApiResultToDict(result).error == Malformed(FaultIn(result, EvalOrder, 0, |EvalOrder|).value)
  {
    EvalOrderFields();
    FaultInSplit(result, EvalOrder, 0, 2, 17);
    FaultInSplit(result, EvalOrder, 2, 8, 17);
    FaultInSplit(result, EvalOrder, 8, 9, 17);
    FaultInSplit(result, EvalOrder, 9, 15, 17);
    BindingsFault(result);
    TopLevelFault(result);
    if Subscript(result, Name("usage")).Success? && Then(Subscript(result, Name("choices")), Index(0)).Success? {
      TokensFault(result);
      ChoiceFault(result);
    }
  }

  /** In a dict whose keys are distinct, each key finds its own item. */
  lemma GetDistinct(d: Dict, i: nat)
    requires DistinctKeys(d) && i < |d|
    ensures Get(d, d[i].0) == Some(d[i].1)
  {
  }

  /** Each output key reads back the value paired with it. */
  lemma GetOutputKey(values: seq<Json>, i: nat)
    requires |values| == |OutputKeys| && i < |OutputKeys|
    ensures Get(WithOutputKeys(values), OutputKeys[i]) == Some(values[i])
  {
    OutputKeysDistinct();
    GetDistinct(WithOutputKeys(values), i);
  }

  /** A successful conversion copies each field from the end of its chain, unchecked: in
      particular `total_tokens` is stored as the API sent it, whatever the other counts. */
  lemma OutputFields(result: Json)
    requires ApiResultToDict(result).Success?
    ensures AllFieldsResolve(result)
    ensures forall i :: 0 <= i < |OutputKeys| ==>
              Get(ApiResultToDict(result).value, OutputKeys[i]) == Some(FieldPath(result, i).value)
  {
    ApiResultToDictByPaths(result);
    var vs := AllFieldValues(result);
    forall i | 0 <= i < |OutputKeys| ensures Get(WithOutputKeys(vs), OutputKeys[i]) == Some(FieldPath(result, i).value) {
      GetOutputKey(vs, i);
    }
  }

  /** A failed extraction is reported as the TypeError carrying the fault's text. */
  lemma FailureIsMalformed(result: Json)
    requires Extract(result).Failure?
    ensures ApiResultToDict(result) == Failure(Malformed(Extract(result).error))
  {
  }

  /** An empty `choices` list, found once `usage` is, raises the TypeError of an IndexError. */
  lemma EmptyChoicesRaise(result: Json)
    requires Subscript(result, Name("usage")).Success?
    requires Subscript(result, Name("choices")) == Success(JArr([]))
    ensures ApiResultToDict(result) == Failure(Malformed(IndexError("list")))
    ensures FaultText(IndexError("list")) == "list index out of range"
  {
    EmptyChoicesFault(result);
    FailureIsMalformed(result);
    ListIndexText();
  }

  lemma EmptyChoicesFault(result: Json)
    requires Subscript(result, Name("usage")).Success?
    requires Subscript(result, Name("choices")) == Success(JArr([]))
    ensures Extract(result) == Failure(IndexError("list"))
  {
    assert Subscript(JArr([]), Index(0)) == Failure(IndexError("list"));
  }

  lemma ListIndexText()
    ensures FaultText(IndexError("list")) == "list index out of range"
  {
  }

  lemma MissingKeyRaises(result: Json, k: string)
    requires Extract(result) == Failure(KeyError(Name(k)))
    ensures ApiResultToDict(result) == Failure(Malformed(KeyError(Name(k))))
  {
    FailureIsMalformed(result);
  }

  /** The keys whose absence the two lemmas below exhibit. */
  const UsageKey: string := "usage"
  const ObjectKey: string := "object"

  lemma UsageKeyText()
    ensures FaultText(KeyError(Name(UsageKey))) == "'" + UsageKey + "'"
  {
    KeyErrorText(UsageKey);
  }

  lemma ObjectKeyText()
    ensures FaultText(KeyError(Name(ObjectKey))) == "'" + ObjectKey + "'"
  {
    KeyErrorText(ObjectKey);
  }

  /** A response without `usage` is rejected with the text of `KeyError('usage')`. */
  lemma MissingUsageRaises(fields: Dict)
    requires !HasKey(fields, UsageKey)
    ensures ApiResultToDict(JObj(fields)) == Failure(Malformed(KeyError(Name(UsageKey))))
    ensures FaultText(KeyError(Name(UsageKey))) == "'" + UsageKey + "'"
  {
    assert Extract(JObj(fields)) == Failure(KeyError(Name(UsageKey)));
    MissingKeyRaises(JObj(fields), UsageKey);
    UsageKeyText();
  }

  /** A response whose lookups before `object` succeed but that has no `object` key (as the
      usage example in the documentation does not) is rejected with the text of
      `KeyError('object')`. */
  lemma MissingObjectRaises(fields: Dict)
    requires HasKey(fields, "usage") && HasKey(fields, "id") && !HasKey(fields, ObjectKey)
    requires Then(Subscript(JObj(fields), Name("choices")), Index(0)).Success?
    ensures ApiResultToDict(JObj(fields)) == Failure(Malformed(KeyError(Name(ObjectKey))))
    ensures FaultText(KeyError(Name(ObjectKey))) == "'" + ObjectKey + "'"
  {
    MissingObjectFault(fields);
    MissingKeyRaises(JObj(fields), ObjectKey);
    ObjectKeyText();
  }

  lemma MissingObjectFault(fields: Dict)
    requires HasKey(fields, "usage") && HasKey(fields, "id") && !HasKey(fields, "object")
    requires Then(Subscript(JObj(fields), Name("choices")), Index(0)).Success?
    ensures Extract(JObj(fields)) == Failure(KeyError(Name("object")))
  {
    assert TopLevelValues(JObj(fields)) == Failure(KeyError(Name("object")));
  }

  /** The first faults of two runs of chains agree when each chain has the same outcome on
      both responses. */
  lemma {:induction false} FaultInAgree(a: Json, b: Json, paths: seq<seq<Key>>, i: nat, j: nat)
    requires i <= j <= |paths|
    requires forall k :: i <= k < j ==> Path(a, paths[k]) == Path(b, paths[k])
    ensures FaultIn(a, paths, i, j) == FaultIn(b, paths, i, j)
    decreases j - i
  {
    if i < j {
      FaultInAgree(a, b, paths, i + 1, j);
    }
  }

  /** The conversion depends on the response only through the outcomes of its 17 lookups:
      two responses on which every chain of `EvalOrder` has the same outcome convert alike,
      to the same dict or to the same TypeError. */
  lemma DeterminedByLookups(a: Json, b: Json)
    requires forall i :: 0 <= i < |EvalOrder| ==> Path(a, EvalOrder[i]) == Path(b, EvalOrder[i])
    ensures ApiResultToDict(a) == ApiResultToDict(b)
  {
    FaultInAgree(a, b, EvalOrder, 0, |EvalOrder|);
    FailureIsFirstFault(a);
    FailureIsFirstFault(b);
    FieldPathsAgree(a, b);
    SameFieldValues(a, b);
    ApiResultToDictByPaths(a);
    ApiResultToDictByPaths(b);
  }

  lemma FieldPathsAgree(a: Json, b: Json)
    requires forall i :: 0 <= i < |EvalOrder| ==> Path(a, EvalOrder[i]) == Path(b, EvalOrder[i])
    ensures forall i :: 0 <= i < |FieldPaths| ==> FieldPath(a, i) == FieldPath(b, i)
  {
    EvalOrderFields();
    forall i | 0 <= i < |FieldPaths| ensures FieldPath(a, i) == FieldPath(b, i) {
      assert Path(a, EvalOrder[i + 2]) == Path(b, EvalOrder[i + 2]);
    }
  }

  lemma SameFieldValues(a: Json, b: Json)
    requires forall i :: 0 <= i < |FieldPaths| ==> FieldPath(a, i) == FieldPath(b, i)
    ensures AllFieldsResolve(a) <==> AllFieldsResolve(b)
    ensures AllFieldsResolve(a) ==> AllFieldValues(a) == AllFieldValues(b)
  {
    if AllFieldsResolve(a) {
      assert AllFieldValues(a) == AllFieldValues(b);
    }
  }

  /** A chain that starts with a top-level key and, when that key is `choices`, goes on to
      element 0. */
  predicate ReadsOnlyFirstChoice(p: seq<Key>)
  {
    |p| >= 1 && p[0].Name? && (p[0].name == "choices" ==> |p| >= 2 && p[1] == Index(0))
  }

  lemma EvalOrderReadsOnlyFirstChoice()
    ensures forall i :: 0 <= i < |EvalOrder| ==> ReadsOnlyFirstChoice(EvalOrder[i])
  {
    EvalOrderFields();
    forall i | 0 <= i < |FieldPaths| ensures ReadsOnlyFirstChoice(FieldPaths[i]) {
      if i == 6 || i == 13 || i == 14 {
        assert FieldPaths[i][..2] == [Name("choices"), Index(0)];
      } else {
        assert FieldPaths[i][0].name != "choices";
      }
    }
  }

  /** Two responses that agree on every top-level key except `choices`, and whose
      `choices[0]` lookups agree. */
  ghost predicate AgreeOffLaterChoices(a: Json, b: Json)
  {
    (forall k :: k != "choices" ==> Subscript(a, Name(k)) == Subscript(b, Name(k))) &&
    Then(Subscript(a, Name("choices")), Index(0)) == Then(Subscript(b, Name("choices")), Index(0))
  }

  lemma PathOffLaterChoices(a: Json, b: Json, p: seq<Key>)
    requires AgreeOffLaterChoices(a, b) && ReadsOnlyFirstChoice(p)
    ensures Path(a, p) == Path(b, p)
  {
    if p[0].name == "choices" {
      assert p == [p[0], p[1]] + p[2..];
      PathThen(a, p[0], p[1], p[2..]);
      PathThen(b, p[0], p[1], p[2..]);
    } else {
      assert p == [p[0]] + p[1..];
      assert Subscript(a, p[0]) == Subscript(b, p[0]);
      PathCons(a, p[0], p[1..]);
      PathCons(b, p[0], p[1..]);
    }
  }

  /** Only `choices[0]` is read: responses that differ only in `choices` beyond its first
      element, or anywhere in a `choices` whose element 0 fails alike, convert alike. */
  lemma OnlyFirstChoiceMatters(a: Json, b: Json)
    requires AgreeOffLaterChoices(a, b)
    ensures ApiResultToDict(a) == ApiResultToDict(b)
  {
    EvalOrderReadsOnlyFirstChoice();
    forall i | 0 <= i < |EvalOrder| ensures Path(a, EvalOrder[i]) == Path(b, EvalOrder[i]) {
      PathOffLaterChoices(a, b, EvalOrder[i]);
    }
    DeterminedByLookups(a, b);
  }

  /** Two `choices` lists with the same first element convert alike, whatever follows it. */
  lemma LaterChoicesIgnored(a: Json, b: Json, c: Json, r1: seq<Json>, r2: seq<Json>)
    requires forall k :: k != "choices" ==> Subscript(a, Name(k)) == Subscript(b, Name(k))
    requires Subscript(a, Name("choices")) == Success(JArr([c] + r1))
    requires Subscript(b, Name("choices")) == Success(JArr([c] + r2))
    ensures ApiResultToDict(a) == ApiResultToDict(b)
  {
    assert Subscript(JArr([c] + r1), Index(0)) == Success(c);
    assert Subscript(JArr([c] + r2), Index(0)) == Success(c);
    OnlyFirstChoiceMatters(a, b);
  }
}
