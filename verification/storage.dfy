/** The settings record kept in local storage under one fixed key (storage.js).
    The stored text is either missing (or empty), unparsable, or the JSON
    object of a record; a field whose value is `undefined` is dropped when the
    record is serialised, so a record is a map of present fields. */
module Storage {
  import opened Wrappers

  const ApiKey := "apiKey"
  const Model := "model"
  const Prompt := "prompt"

  type Config = map<string, string>

  /** What local storage holds under the key `tmj_config`. `Absent` also stands for the
      empty string, which both readers treat like a missing item. */
  datatype Stored = Absent | Corrupt | Record(fields: Config)

  datatype StorageError = ParseError

  /** `getConfig`: the stored record, or the empty record when nothing is
      stored or the stored text does not parse. Never fails. */
  function GetConfig(s: Stored): (r: Config)
    ensures s.Record? ==> r == s.fields
    ensures !s.Record? ==> r == map[]
  {
    match s
    case Record(fields) => fields
    case _ => map[]
  }

  /** One field of the spread `{ ...current, key: value }` after serialisation:
      set when the value is supplied, dropped when it is `undefined`. */
  function Put(m: Config, key: string, value: Option<string>): (r: Config)
    ensures value.Some? ==> key in r && r[key] == value.value
    ensures value.None? ==> key !in r
    ensures forall k :: k != key ==> (k in r <==> k in m)
    ensures forall k :: k != key && k in r ==> r[k] == m[k]
  {
    match value
    case Some(v) => m[key := v]
    case None => m - {key}
  }

  /** `saveConfig({ apiKey, model, prompt })`: writes all three fields, each
      exactly as supplied (an omitted one ends up absent), over the current
      record, and keeps every other field of the current record. */
  function SaveConfig(s: Stored, apiKey: Option<string>, model: Option<string>, prompt: Option<string>): (r: Stored)
    ensures r.Record?
    ensures apiKey.Some? <==> ApiKey in r.fields
    ensures apiKey.Some? ==> r.fields[ApiKey] == apiKey.value
    ensures model.Some? <==> Model in r.fields
    ensures model.Some? ==> r.fields[Model] == model.value
    ensures prompt.Some? <==> Prompt in r.fields
    ensures prompt.Some? ==> r.fields[Prompt] == prompt.value
    ensures forall k :: k != ApiKey && k != Model && k != Prompt ==>
              (k in r.fields <==> k in GetConfig(s))
    ensures forall k :: k != ApiKey && k != Model && k != Prompt && k in r.fields ==>
              r.fields[k] == GetConfig(s)[k]
  {
    var current := GetConfig(s);
    Record(Put(Put(Put(current, ApiKey, apiKey), Model, model), Prompt, prompt))
  }

  /** `clearApiKey`: parses the stored text (missing or empty text reads as
      `{}`), deletes `apiKey` and writes the record back. Unlike `GetConfig`,
      unparsable text makes it fail, and nothing is written. */
  function ClearApiKey(s: Stored): (r: Result<Stored, StorageError>)
    ensures r.Failure? <==> s.Corrupt?
    ensures r.Success? ==> r.value.Record? && ApiKey !in r.value.fields
    ensures r.Success? ==> forall k :: k != ApiKey ==>
              (k in r.value.fields <==> k in GetConfig(s))
    ensures r.Success? ==> forall k :: k != ApiKey && k in r.value.fields ==>
              r.value.fields[k] == GetConfig(s)[k]
  {
    match s
    case Corrupt => Failure(ParseError)
    case Absent => Success(Record(map[]))
    case Record(fields) => Success(Record(fields - {ApiKey}))
  }

  /** Save then get: the three fields read back exactly as saved. */
  lemma SaveThenGet(s: Stored, apiKey: Option<string>, model: Option<string>, prompt: Option<string>)
    ensures var c := GetConfig(SaveConfig(s, apiKey, model, prompt));
            && (if ApiKey in c then Some(c[ApiKey]) else None) == apiKey
            && (if Model in c then Some(c[Model]) else None) == model
            && (if Prompt in c then Some(c[Prompt]) else None) == prompt
  {
  }

  /** Saving without an `apiKey` drops a previously stored key: the record is
      overwritten field by field, not merged. */
  lemma SaveOmittedFieldDropped(s: Stored, model: string)
    requires ApiKey in GetConfig(s)
    ensures ApiKey !in GetConfig(SaveConfig(s, None, Some(model), None))
  {
  }

  /** Clearing the key twice is clearing it once. */
  lemma ClearApiKeyIdempotent(s: Stored)
    requires ClearApiKey(s).Success?
    ensures ClearApiKey(ClearApiKey(s).value) == ClearApiKey(s)
  {
    var once := ClearApiKey(s).value;
    assert once.fields - {ApiKey} == once.fields;
  }

  /** Clearing the key keeps the model and prompt as `getConfig` saw them. */
  lemma ClearKeepsSettings(s: Stored)
    requires !s.Corrupt?
    ensures var c := GetConfig(ClearApiKey(s).value);
            && ApiKey !in c
            && (Model in c <==> Model in GetConfig(s))
            && (Model in c ==> c[Model] == GetConfig(s)[Model])
            && (Prompt in c <==> Prompt in GetConfig(s))
            && (Prompt in c ==> c[Prompt] == GetConfig(s)[Prompt])
  {
  }

  /** The two readers disagree on unparsable text: `getConfig` falls back to
      the empty record, `clearApiKey` fails. */
  lemma CorruptReadersDisagree()
    ensures GetConfig(Corrupt) == map[]
    ensures ClearApiKey(Corrupt).Failure?
  {
  }
}
