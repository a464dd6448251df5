/**
 * The popup's settings: the OpenAI API key and the chunk size, kept in
 * `browser.storage.local`, modelled as a key/value map the popup reads and
 * updates. Form fields are the strings the user typed.
 */
module PopupSettings {
  import opened JsString

  /** A stored value: the key is a string, the chunk size a number. */
  datatype Value = Str(s: string) | Num(n: int)

  /** JavaScript truthiness of a stored value: not empty, not zero. */
  predicate Truthy(v: Value) {
    match v
    case Str(s) => s != ""
    case Num(n) => n != 0
  }

  const ApiKeyKey := "claudeApiKey"
  const ChunkSizeKey := "chunkSize"
  const DefaultChunkSize := 5000

  /** `storage.get` of one key: `None` when it is absent. */
  function Lookup(items: map<string, Value>, key: string): Option<Value>
  {
    if key in items then Some(items[key]) else None
  }

  /**
   * `result.chunkSize || 5000`: a stored chunk size that is missing or falsy
   * (zero) becomes 5000; any other stored value, negative numbers included, is
   * used as it is.
   */
  function StoredChunkSize(stored: Option<Value>): (r: Value)
    ensures Truthy(r)
    ensures stored.Some? && Truthy(stored.value) ==> r == stored.value
    ensures stored.None? || !Truthy(stored.value) ==> r == Num(DefaultChunkSize)
  {
    if stored.Some? && Truthy(stored.value) then stored.value else Num(DefaultChunkSize)
  }

  /**
   * `parseInt(input) || 5000`: the typed chunk size, or 5000 when it does not
   * parse (`NaN`) or parses to zero.
   */
  function ParsedChunkSize(input: string): (r: int)
    ensures r != 0
    ensures ParseInt(input).None? || ParseInt(input) == Some(0) ==> r == DefaultChunkSize
    ensures ParseInt(input).Some? && ParseInt(input).value != 0 ==> r == ParseInt(input).value
  {
    match ParseInt(input)
    case None => DefaultChunkSize
    case Some(n) => if n != 0 then n else DefaultChunkSize
  }

  /**
   * A chunk size typed as a decimal number (a leading minus sign and trailing
   * non-digits allowed) is kept exactly when it is not zero, negative ones included.
   */
  lemma ParsedChunkSizeKeepsNumber(n: nat, negative: bool, rest: string)
    requires n != 0 && EndsNumber(rest)
    ensures ParsedChunkSize((if negative then "-" else "") + NatToString(n) + rest)
      == if negative then -(n as int) else n
  {
    ParseIntOfNatToString(n, negative, rest);
  }

  /** A zero typed as the chunk size, signed or not, falls back to 5000. */
  lemma ParsedChunkSizeZero(negative: bool, rest: string)
    requires EndsNumber(rest)
    ensures ParsedChunkSize((if negative then "-" else "") + NatToString(0) + rest) == DefaultChunkSize
  {
    ParseIntOfNatToString(0, negative, rest);
  }

  /** A positive number written in decimal, and nothing else, is kept as the chunk size. */
  lemma PlainChunkSizeKept(n: nat)
    requires n != 0
    ensures ParsedChunkSize(NatToString(n)) == n
  {
    ParsedChunkSizeKeepsNumber(n, false, "");
    assert "" + NatToString(n) + "" == NatToString(n);
  }

  /** The reset button's 5000, once saved, is stored as 5000. */
  lemma ResetChunkSizeSaves()
    ensures ParsedChunkSize(NatToString(DefaultChunkSize)) == DefaultChunkSize
  {
    PlainChunkSizeKept(DefaultChunkSize);
  }

  /** A field holding only whitespace, or nothing, is no number: the chunk size falls back to 5000. */
  lemma BlankChunkSizeDefaults(input: string)
    requires AllWs(input)
    ensures ParsedChunkSize(input) == DefaultChunkSize
  {
  }

  /**
   * The storage after Save: the chunk size is always written, as parsed; a
   * non-empty trimmed key is written too, while an empty one removes the stored
   * key; no other entry changes.
   */
  function SaveUpdate(items: map<string, Value>, apiKeyInput: string, chunkSizeInput: string)
    : (r: map<string, Value>)
    ensures ChunkSizeKey in r && r[ChunkSizeKey] == Num(ParsedChunkSize(chunkSizeInput))
    ensures ApiKeyKey in r <==> Trim(apiKeyInput) != ""
    ensures ApiKeyKey in r ==> r[ApiKeyKey] == Str(Trim(apiKeyInput))
    ensures forall k :: k != ApiKeyKey && k != ChunkSizeKey ==> (k in r <==> k in items)
    ensures forall k :: k in r && k != ApiKeyKey && k != ChunkSizeKey ==> r[k] == items[k]
  {
    var apiKey := Trim(apiKeyInput);
    var chunkSize := Num(ParsedChunkSize(chunkSizeInput));
    if apiKey != "" then
      items + map[ChunkSizeKey := chunkSize, ApiKeyKey := Str(apiKey)]
    else
      (items - {ApiKeyKey}) + map[ChunkSizeKey := chunkSize]
  }

  /** What the compress button finds in storage. */
  datatype CompressSettings = MissingApiKey | Settings(apiKey: Value, chunkSize: Value)

  /**
   * Before compressing: without a truthy stored key the operation is refused;
   * otherwise it runs with that key and the stored chunk size, 5000 when missing
   * or zero.
   */
  function CompressSettingsOf(items: map<string, Value>): (r: CompressSettings)
    ensures r.MissingApiKey? <==> ApiKeyKey !in items || !Truthy(items[ApiKeyKey])
    ensures r.Settings? ==> r.apiKey == items[ApiKeyKey] && Truthy(r.chunkSize)
    ensures r.Settings? ==> r.chunkSize == StoredChunkSize(Lookup(items, ChunkSizeKey))
  {
    var key := Lookup(items, ApiKeyKey);
    if key.None? || !Truthy(key.value) then MissingApiKey
    else Settings(key.value, StoredChunkSize(Lookup(items, ChunkSizeKey)))
  }

  /**
   * Saved settings are the ones a compression uses: the trimmed key and the chunk
   * size as typed (a non-zero parse is never replaced by the default); after saving
   * an empty key, compression is refused.
   */
  lemma SaveThenCompress(items: map<string, Value>, apiKeyInput: string, chunkSizeInput: string)
    ensures var saved := SaveUpdate(items, apiKeyInput, chunkSizeInput);
      CompressSettingsOf(saved)
        == if Trim(apiKeyInput) == "" then MissingApiKey
           else Settings(Str(Trim(apiKeyInput)), Num(ParsedChunkSize(chunkSizeInput)))
  {
  }

  /** What the settings form shows after loading. */
  datatype SettingsForm = SettingsForm(apiKeyField: Value, hasKey: bool, chunkSizeField: Value)

  /**
   * `loadSettings`: a truthy stored key fills the key field and marks a key as
   * present; otherwise the field is cleared. The chunk field shows the stored
   * chunk size, or 5000 when it is missing or zero.
   */
  function FormOf(items: map<string, Value>): (r: SettingsForm)
    ensures r.hasKey <==> ApiKeyKey in items && Truthy(items[ApiKeyKey])
    ensures r.apiKeyField == if r.hasKey then items[ApiKeyKey] else Str("")
    ensures r.chunkSizeField == StoredChunkSize(Lookup(items, ChunkSizeKey))
  {
    var key := Lookup(items, ApiKeyKey);
    var hasKey := key.Some? && Truthy(key.value);
    SettingsForm(if hasKey then key.value else Str(""), hasKey, StoredChunkSize(Lookup(items, ChunkSizeKey)))
  }

  /** After saving, loading shows the saved key (or none) and the saved chunk size. */
  lemma SaveThenLoad(items: map<string, Value>, apiKeyInput: string, chunkSizeInput: string)
    ensures var form := FormOf(SaveUpdate(items, apiKeyInput, chunkSizeInput));
      form.hasKey == (Trim(apiKeyInput) != "")
      && form.apiKeyField == Str(Trim(apiKeyInput))
      && form.chunkSizeField == Num(ParsedChunkSize(chunkSizeInput))
  {
  }

  /** `browser.storage.local`, as the popup sees it. */
  class SettingsStorage {
    var items: map<string, Value>

    constructor (initial: map<string, Value>)
      ensures items == initial
    {
      items := initial;
    }

    /** `storage.local.set`: the given entries overwrite or add, the rest stay. */
    method Set(entries: map<string, Value>)
      modifies this
      ensures items == old(items) + entries
    {
      items := items + entries;
    }

    /** `storage.local.remove`: the given keys are gone, the rest stay. */
    method Remove(keys: set<string>)
      modifies this
      ensures items == old(items) - keys
    {
      items := items - keys;
    }

    /**
     * The Save button: with a non-empty trimmed key, one `set` of key and chunk
     * size; otherwise a `remove` of the key, then a `set` of the chunk size.
     * `hasKey` is the key status shown afterwards.
     */
    method SaveSettings(apiKeyInput: string, chunkSizeInput: string) returns (hasKey: bool)
      modifies this
      ensures items == SaveUpdate(old(items), apiKeyInput, chunkSizeInput)
      ensures hasKey <==> ApiKeyKey in items
    {
      var apiKey := Trim(apiKeyInput);
      var chunkSize := ParsedChunkSize(chunkSizeInput);
      var settings := map[ChunkSizeKey := Num(chunkSize)];
      if apiKey != "" {
        settings := settings[ApiKeyKey := Str(apiKey)];
      }
      if apiKey != "" {
        assert settings == map[ChunkSizeKey := Num(chunkSize), ApiKeyKey := Str(apiKey)];
        Set(settings);
        hasKey := true;
      } else {
        Remove({ApiKeyKey});
        Set(map[ChunkSizeKey := Num(chunkSize)]);
        hasKey := false;
      }
    }

    /**
     * `loadSettings`: fill the form from storage and, when no truthy chunk size is
     * stored, store the default 5000.
     */
    method LoadSettings() returns (form: SettingsForm)
      modifies this
      ensures form == FormOf(old(items))
      ensures ChunkSizeKey in items && Truthy(items[ChunkSizeKey])
      ensures items == if ChunkSizeKey in old(items) && Truthy(old(items)[ChunkSizeKey]) then old(items)
        else old(items)[ChunkSizeKey := Num(DefaultChunkSize)]
    {
      form := FormOf(items);
      var stored := Lookup(items, ChunkSizeKey);
      if !(stored.Some? && Truthy(stored.value)) {
        Set(map[ChunkSizeKey := Num(DefaultChunkSize)]);
      }
    }

    /** The Remove key button: the key is removed and the key field cleared. */
    method RemoveKey() returns (apiKeyField: string)
      modifies this
      ensures items == old(items) - {ApiKeyKey}
      ensures apiKeyField == ""
    {
      Remove({ApiKeyKey});
      apiKeyField := "";
    }

    /** The compress button reads the key and the chunk size; storage does not change. */
    method ReadCompressSettings() returns (r: CompressSettings)
      ensures r == CompressSettingsOf(items)
    {
      r := CompressSettingsOf(items);
    }
  }

  /** Loading twice writes the default at most once: after one load the chunk size is truthy. */
  lemma LoadSettled(items: map<string, Value>)
    ensures var loaded := if ChunkSizeKey in items && Truthy(items[ChunkSizeKey]) then items
        else items[ChunkSizeKey := Num(DefaultChunkSize)];
      ChunkSizeKey in loaded && Truthy(loaded[ChunkSizeKey])
      && FormOf(loaded).chunkSizeField == FormOf(items).chunkSizeField
  {
  }
}
