/**
 * The plugin's settings (`RCP_Settings`): one stored option holding a
 * key-to-value map, read with built-in defaults, written key by key or in
 * bulk, normalised by the sanitiser, exported without the API key and
 * imported through the sanitiser.
 */
module Settings {
  import opened Base
  import opened Php

  // ---------------------------------------------------------------- values

  /** A PHP value as it can appear in the settings array or in submitted input. */
  datatype Value =
    | Null
    | Bool(b: bool)
    | Int(i: int)
    | Float(x: real)
    | Str(s: string)
    | Dict(entries: map<string, Value>)

  /** `!empty($v)`. */
  predicate Truthy(v: Value) {
    match v
    case Null => false
    case Bool(b) => b
    case Int(i) => i != 0
    case Float(x) => x != 0.0
    case Str(s) => !Empty(s)
    case Dict(m) => |m| > 0
  }

  /** `intval($v)`: floats are truncated toward zero, arrays give 0 or 1. */
  function IntValOf(v: Value): int {
    match v
    case Null => 0
    case Bool(b) => if b then 1 else 0
    case Int(i) => i
    case Float(x) => if x >= 0.0 then x.Floor else 0 - (0.0 - x).Floor
    case Str(s) => IntVal(s)
    case Dict(m) => if |m| > 0 then 1 else 0
  }

  /** `$input[$key]`: a missing key reads as null. */
  function Field(input: map<string, Value>, key: string): Value {
    if key in input then input[key] else Null
  }

  /** `$input[$key] ?? $default`: a missing key or a null value gives the default. */
  function Coalesce(input: map<string, Value>, key: string, default: Value): Value {
    if key in input && input[key] != Null then input[key] else default
  }

  /** The foreign calls the settings use. */
  datatype SettingsEnv = SettingsEnv(
    salt: string,                      // wp_salt('auth')
    encode: string -> string,          // base64_encode
    decode: string -> string,          // base64_decode, "" for malformed input
    toText: Value -> string,           // PHP's string conversion
    sanitizeText: Value -> string,     // sanitize_text_field
    sanitizeTextarea: Value -> string, // sanitize_textarea_field
    toFloat: Value -> real)            // floatval

  /** base64 decodes what it encodes, and encodes a non-empty string to text that `empty()` does not reject. */
  ghost predicate SoundCodec(env: SettingsEnv) {
    forall x :: env.decode(env.encode(x)) == x && (x != "" ==> !Empty(env.encode(x)))
  }

  // ---------------------------------------------------------------- defaults

  const BoolFields: seq<string> := ["download_media", "auto_attribution", "enable_logging", "enable_cron", "cleanup_old_items"]

  const IntFields: seq<string> := [
    "media_timeout", "max_items_per_fetch", "similarity_threshold", "cache_duration", "webhook_timeout",
    "webhook_retries", "openai_max_tokens", "cleanup_days", "rate_limit_requests", "rate_limit_window"]

  const Modes: seq<string> := ["n8n", "direct_api"]
  const LogLevels: seq<string> := ["debug", "info", "warning", "error"]
  const ApiKey := "openai_api_key"

  /** The built-in defaults. */
  const Defaults: map<string, Value> := map[
    "processing_mode" := Str("n8n"),
    "download_media" := Bool(false),
    "media_timeout" := Int(30),
    "max_items_per_fetch" := Int(50),
    "default_post_status" := Str("draft"),
    "auto_attribution" := Bool(true),
    "attribution_template" := Str("Originally published on {source_site} on {pub_date}."),
    "similarity_threshold" := Int(80),
    "enable_logging" := Bool(true),
    "log_level" := Str("info"),
    "cache_duration" := Int(3600),
    "webhook_timeout" := Int(30),
    "webhook_retries" := Int(3),
    "openai_api_key" := Str(""),
    "openai_model" := Str("gpt-4"),
    "openai_temperature" := Float(0.7),
    "openai_max_tokens" := Int(2000),
    "enable_cron" := Bool(true),
    "cron_interval" := Str("hourly"),
    "cleanup_old_items" := Bool(false),
    "cleanup_days" := Int(30),
    "rate_limit_requests" := Int(100),
    "rate_limit_window" := Int(3600)]

  function DefaultOf(key: string): Value {
    if key in Defaults then Defaults[key] else Null
  }

  // ---------------------------------------------------------------- the stored option

  /**
   * `get($key, $default)` on the stored option (None when the option does not exist,
   * in which case the defaults are read): a stored non-null value, else the caller's
   * non-null default, else the built-in default.
   */
  function GetOf(stored: Option<map<string, Value>>, key: string, default: Value): Value {
    var settings := stored.GetOr(Defaults);
    if key in settings && settings[key] != Null then settings[key]
    else if default != Null then default
    else DefaultOf(key)
  }

  /** The map `set($key, $value)` writes back. */
  function SetOf(stored: Option<map<string, Value>>, key: string, value: Value): map<string, Value> {
    stored.GetOr(Defaults)[key := value]
  }

  /** `array_merge($base, $over)` on string keys: every key of either, the value of `over` winning. */
  function Merge(base: map<string, Value>, over: map<string, Value>): (r: map<string, Value>)
    ensures r.Keys == base.Keys + over.Keys
    ensures forall k :: k in over ==> r[k] == over[k]
    ensures forall k :: k in base && k !in over ==> r[k] == base[k]
  {
    base + over
  }

  /** `get_all()`: `wp_parse_args` of the stored map over the defaults. */
  function AllOf(stored: Option<map<string, Value>>): map<string, Value> {
    Merge(Defaults, stored.GetOr(map[]))
  }

  /** After `set(k, v)` with a non-null `v`, `get(k)` gives `v` whatever the default. */
  lemma GetAfterSet(stored: Option<map<string, Value>>, key: string, value: Value, default: Value)
    requires value != Null
    ensures GetOf(Some(SetOf(stored, key, value)), key, default) == value
  {
  }

  /** `set(k, v)` changes what no other key reads. */
  lemma SetChangesOnlyKey(stored: Option<map<string, Value>>, key: string, value: Value, other: string, default: Value)
    requires other != key
    ensures GetOf(Some(SetOf(stored, key, value)), other, default) == GetOf(stored, other, default)
    ensures other in AllOf(stored) <==> other in AllOf(Some(SetOf(stored, key, value)))
    ensures other in AllOf(stored) ==> AllOf(Some(SetOf(stored, key, value)))[other] == AllOf(stored)[other]
  {
  }

  /** `get_all()` has a value for every built-in key, the stored one where there is one. */
  lemma AllOfCoversDefaults(stored: Option<map<string, Value>>, key: string)
    requires key in Defaults
    ensures key in AllOf(stored)
    ensures AllOf(stored)[key] == if stored.Some? && key in stored.value then stored.value[key] else Defaults[key]
  {
  }

  /** After `reset()` every key reads its built-in default, and `get_all()` is the defaults. */
  lemma ResetRestoresDefaults(key: string)
    ensures GetOf(Some(Defaults), key, Null) == DefaultOf(key)
    ensures AllOf(Some(Defaults)) == Defaults
  {
    assert Merge(Defaults, Defaults) == Defaults;
  }

  /** After `update($s)` every key of `$s` reads its new value and every other key reads what `get_all()` read before. */
  lemma UpdateMerges(stored: Option<map<string, Value>>, over: map<string, Value>, key: string)
    ensures var after := AllOf(Some(Merge(AllOf(stored), over)));
            (key in over ==> key in after && after[key] == over[key]) &&
            (key !in over && key in AllOf(stored) ==> key in after && after[key] == AllOf(stored)[key])
  {
  }

  // ---------------------------------------------------------------- the API key

  /** `encrypt_api_key`: empty keys stay empty; otherwise base64 of `key|salt`. */
  function Encrypt(env: SettingsEnv, key: string): string {
    if Empty(key) then "" else env.encode(key + "|" + env.salt)
  }

  /** `decrypt_api_key`: the part before `|` when the decoded text is exactly two parts and the second is the salt; "" otherwise. */
  function Decrypt(env: SettingsEnv, encrypted: string): string {
    if Empty(encrypted) then ""
    else
      var parts := Split(env.decode(encrypted), '|');
      if |parts| == 2 && parts[1] == env.salt then parts[0] else ""
  }

  /** The round trip: a non-empty key without `|`, under a salt without `|`, decrypts to itself. */
  lemma DecryptEncrypt(env: SettingsEnv, key: string)
    requires SoundCodec(env)
    requires '|' !in key && '|' !in env.salt && !Empty(key)
    ensures Decrypt(env, Encrypt(env, key)) == key
  {
    var plain := key + "|" + env.salt;
    assert env.decode(env.encode(plain)) == plain && !Empty(env.encode(plain));
    SplitAtFirst(key, '|', env.salt);
    SplitNoDelimiter(env.salt, '|');
    assert key + "|" + env.salt == key + ['|'] + env.salt;
  }

  /** Empty input gives empty output in both directions. */
  lemma EmptyKeyStaysEmpty(env: SettingsEnv, key: string)
    requires Empty(key)
    ensures Encrypt(env, key) == "" && Decrypt(env, key) == ""
  {
  }

  /** Whatever decrypts to a non-empty key decodes to exactly that key, `|` and the salt: a wrong salt or part count gives "". */
  lemma DecryptNeedsSalt(env: SettingsEnv, encrypted: string)
    requires Decrypt(env, encrypted) != ""
    ensures env.decode(encrypted) == Decrypt(env, encrypted) + "|" + env.salt
    ensures '|' !in Decrypt(env, encrypted)
  {
    var decoded := env.decode(encrypted);
    SplitJoin(decoded, '|');
    SplitPartsClean(decoded, '|');
    var parts := Split(decoded, '|');
    assert Join(parts, '|') == parts[0] + "|" + Join(parts[1..], '|');
    assert Join(parts[1..], '|') == parts[1];
  }

  // ---------------------------------------------------------------- the sanitiser

  /** PHP 8's loose `==` between a value and a non-empty, non-numeric word: the same string, or boolean `true`. */
  predicate LooseEqualsWord(v: Value, word: string) {
    v == Str(word) || v == Bool(true)
  }

  /** The clamp as written: `in_array($v, $allowed) ? $v : $default`, with `in_array`'s loose comparison. */
  function ClampLoose(v: Value, allowed: seq<string>, default: string): Value {
    if exists a :: a in allowed && LooseEqualsWord(v, a) then v else Str(default)
  }

  /** The clamp as intended: a string among the allowed ones is kept, anything else becomes the default. */
  function ClampStrict(v: Value, allowed: seq<string>, default: string): Value {
    if v.Str? && v.s in allowed then v else Str(default)
  }

  /** The strict clamp always yields an allowed word, and keeps every allowed word. */
  lemma ClampStrictAllowed(v: Value, allowed: seq<string>, default: string)
    requires default in allowed
    ensures ClampStrict(v, allowed, default).Str? && ClampStrict(v, allowed, default).s in allowed
    ensures (v.Str? && v.s in allowed) <==> ClampStrict(v, allowed, default) == v
  {
  }

  /** With loose comparison, boolean `true` passes the clamp and is stored as the processing mode and as the log level. */
  lemma ClampLooseAdmitsTrue()
    ensures ClampLoose(Bool(true), Modes, "n8n") == Bool(true)
    ensures ClampLoose(Bool(true), LogLevels, "info") == Bool(true)
    ensures ClampStrict(Bool(true), Modes, "n8n") == Str("n8n")
  {
    assert "n8n" in Modes && LooseEqualsWord(Bool(true), "n8n");
    assert "debug" in LogLevels && LooseEqualsWord(Bool(true), "debug");
  }

  /** How one of the two field loops coerces a submitted value. */
  datatype Coercion = ToBool | ToInt

  function Coerce(c: Coercion, input: map<string, Value>, f: string): Value {
    match c
    case ToBool => Bool(Truthy(Field(input, f)))
    case ToInt => Int(IntValOf(Coalesce(input, f, DefaultOf(f))))
  }

  /** The `foreach` over a field list: each field in turn gets its coerced value. */
  function Fill(m: map<string, Value>, fields: seq<string>, input: map<string, Value>, c: Coercion): map<string, Value>
    decreases |fields|
  {
    if fields == [] then m
    else
      var f := fields[|fields| - 1];
      Fill(m, fields[..|fields| - 1], input, c)[f := Coerce(c, input, f)]
  }

  /** After the loop every listed field holds its coerced value and every other key is as it was. */
  lemma {:induction false} FillSpec(m: map<string, Value>, fields: seq<string>, input: map<string, Value>, c: Coercion)
    ensures var r := Fill(m, fields, input, c);
            r.Keys == m.Keys + (set f | f in fields) &&
            (forall f :: f in fields ==> r[f] == Coerce(c, input, f)) &&
            (forall k :: k in m && k !in fields ==> r[k] == m[k])
    decreases |fields|
  {
    if fields != [] {
      var init := fields[..|fields| - 1];
      FillSpec(m, init, input, c);
      assert fields == init + [fields[|fields| - 1]];
    }
  }

  lemma FillStep(m: map<string, Value>, fields: seq<string>, input: map<string, Value>, c: Coercion, i: nat)
    requires i < |fields|
    ensures Fill(m, fields[..i + 1], input, c) == Fill(m, fields[..i], input, c)[fields[i] := Coerce(c, input, fields[i])]
  {
    assert fields[..i + 1][..i] == fields[..i];
  }

  /** One of the two `foreach` loops of `sanitize_settings`. */
  method FillFields(m: map<string, Value>, fields: seq<string>, input: map<string, Value>, c: Coercion) returns (r: map<string, Value>)
    ensures r == Fill(m, fields, input, c)
  {
    r := m;
    for i := 0 to |fields|
      invariant r == Fill(m, fields[..i], input, c)
    {
      var f := fields[i];
      r := r[f := Coerce(c, input, f)];
      FillStep(m, fields, input, c, i);
    }
    assert fields[..|fields|] == fields;
  }

  /** What `sanitize_settings` stores for the API key: a non-empty submission encrypted, otherwise the stored key. */
  function SanitizedKey(env: SettingsEnv, stored: Option<map<string, Value>>, input: map<string, Value>): Value {
    if Truthy(Field(input, ApiKey)) then Str(Encrypt(env, env.toText(Field(input, ApiKey))))
    else GetOf(stored, ApiKey, Str(""))
  }

  /** The processing mode and the two field loops: what `sanitize_settings` has written before the text fields. */
  function Looped(input: map<string, Value>): map<string, Value> {
    var head := map["processing_mode" := ClampStrict(Field(input, "processing_mode"), Modes, "n8n")];
    Fill(Fill(head, BoolFields, input, ToBool), IntFields, input, ToInt)
  }

  lemma LoopedKeys(input: map<string, Value>)
    ensures Looped(input).Keys == {"processing_mode"} + (set f | f in BoolFields) + (set f | f in IntFields)
  {
    var head := map["processing_mode" := ClampStrict(Field(input, "processing_mode"), Modes, "n8n")];
    FillSpec(head, BoolFields, input, ToBool);
    FillSpec(Fill(head, BoolFields, input, ToBool), IntFields, input, ToInt);
  }

  lemma LoopedField(input: map<string, Value>, f: string)
    ensures f == "processing_mode" ==> f in Looped(input) && Looped(input)[f] == ClampStrict(Field(input, f), Modes, "n8n")
    ensures f in BoolFields ==> f in Looped(input) && Looped(input)[f] == Coerce(ToBool, input, f)
    ensures f in IntFields ==> f in Looped(input) && Looped(input)[f] == Coerce(ToInt, input, f)
  {
    var head := map["processing_mode" := ClampStrict(Field(input, "processing_mode"), Modes, "n8n")];
    FillSpec(head, BoolFields, input, ToBool);
    FillSpec(Fill(head, BoolFields, input, ToBool), IntFields, input, ToInt);
    FieldListsDisjoint(f);
    if f == "processing_mode" {
      assert f !in BoolFields && f !in IntFields;
    }
  }

  /** `sanitize_settings($input)` against the stored option, in the order the source writes the keys. */
  function Sanitized(env: SettingsEnv, stored: Option<map<string, Value>>, input: map<string, Value>): map<string, Value> {
    Looped(input)
      ["openai_temperature" := Float(env.toFloat(Coalesce(input, "openai_temperature", DefaultOf("openai_temperature"))))]
      ["default_post_status" := Str(env.sanitizeText(Coalesce(input, "default_post_status", Str("draft"))))]
      ["attribution_template" := Str(env.sanitizeTextarea(Coalesce(input, "attribution_template", Str(""))))]
      ["log_level" := ClampStrict(Field(input, "log_level"), LogLevels, "info")]
      ["openai_model" := Str(env.sanitizeText(Coalesce(input, "openai_model", Str("gpt-4"))))]
      ["cron_interval" := Str(env.sanitizeText(Coalesce(input, "cron_interval", Str("hourly"))))]
      [ApiKey := SanitizedKey(env, stored, input)]
  }

  /** The keys written after the two loops. */
  const LaterKeys: set<string> := {"openai_temperature", "default_post_status", "attribution_template", "log_level", "openai_model", "cron_interval", ApiKey}

  lemma FieldListsDisjoint(f: string)
    ensures f in BoolFields ==> f !in IntFields && f !in LaterKeys && f != "processing_mode"
    ensures f in IntFields ==> f !in LaterKeys && f != "processing_mode"
    ensures f == "processing_mode" ==> f !in LaterKeys
  {
  }

  /** The defaults are partitioned into the processing mode, the two field lists and the keys written after them. */
  lemma DefaultKeysPartition()
    ensures Defaults.Keys == {"processing_mode"} + (set f | f in BoolFields) + (set f | f in IntFields) + LaterKeys
  {
    var parts := {"processing_mode"} + (set f | f in BoolFields) + (set f | f in IntFields) + LaterKeys;
    forall k | k in Defaults.Keys ensures k in parts {
      assert k in {"processing_mode"} || k in BoolFields || k in IntFields || k in LaterKeys;
    }
  }

  /** Every integer field has an integer default. */
  lemma IntDefaults(f: string)
    requires f in IntFields
    ensures f in Defaults && Defaults[f].Int?
  {
  }

  /** Every boolean field has a boolean default. */
  lemma BoolDefaults(f: string)
    requires f in BoolFields
    ensures f in Defaults && Defaults[f].Bool?
  {
  }

  /** The sanitised map has exactly the keys of the defaults. */
  lemma SanitizedKeysAreDefaults(env: SettingsEnv, stored: Option<map<string, Value>>, input: map<string, Value>)
    ensures Sanitized(env, stored, input).Keys == Defaults.Keys
  {
    LoopedKeys(input);
    DefaultKeysPartition();
  }

  /** The processing mode is clamped to `n8n` or `direct_api`. */
  lemma SanitizedMode(env: SettingsEnv, stored: Option<map<string, Value>>, input: map<string, Value>)
    ensures var out := Sanitized(env, stored, input);
            "processing_mode" in out && out["processing_mode"].Str? && out["processing_mode"].s in Modes
  {
    LoopedKeys(input);
    LoopedField(input, "processing_mode");
    FieldListsDisjoint("processing_mode");
    ClampStrictAllowed(Field(input, "processing_mode"), Modes, "n8n");
  }

  /** The log level is clamped to `debug`, `info`, `warning` or `error`. */
  lemma SanitizedLogLevel(env: SettingsEnv, stored: Option<map<string, Value>>, input: map<string, Value>)
    ensures var out := Sanitized(env, stored, input);
            "log_level" in out && out["log_level"].Str? && out["log_level"].s in LogLevels
  {
    ClampStrictAllowed(Field(input, "log_level"), LogLevels, "info");
  }

  /** A boolean field holds `!empty` of what was submitted. */
  lemma SanitizedBool(env: SettingsEnv, stored: Option<map<string, Value>>, input: map<string, Value>, f: string)
    requires f in BoolFields
    ensures var out := Sanitized(env, stored, input);
            f in out && out[f] == Bool(Truthy(Field(input, f)))
  {
    LoopedKeys(input);
    LoopedField(input, f);
    FieldListsDisjoint(f);
  }

  /** An integer field holds an integer, its built-in default when nothing was submitted. */
  lemma SanitizedInt(env: SettingsEnv, stored: Option<map<string, Value>>, input: map<string, Value>, f: string)
    requires f in IntFields
    ensures var out := Sanitized(env, stored, input);
            f in out && out[f] == Int(IntValOf(Coalesce(input, f, Defaults[f]))) &&
            (Field(input, f) == Null ==> out[f] == Defaults[f])
  {
    LoopedKeys(input);
    LoopedField(input, f);
    FieldListsDisjoint(f);
    IntDefaults(f);
  }

  /** An empty submitted API key keeps the stored one; a non-empty one is stored encrypted. */
  lemma SanitizedApiKey(env: SettingsEnv, stored: Option<map<string, Value>>, input: map<string, Value>)
    ensures var out := Sanitized(env, stored, input);
            ApiKey in out &&
            (!Truthy(Field(input, ApiKey)) ==> out[ApiKey] == GetOf(stored, ApiKey, Str(""))) &&
            (Truthy(Field(input, ApiKey)) ==> out[ApiKey] == Str(Encrypt(env, env.toText(Field(input, ApiKey)))))
  {
  }

  // ---------------------------------------------------------------- export

  /** The exported backup. */
  datatype Export = Export(version: string, exportedAt: Time, settings: map<string, Value>)

  const PluginVersion := "1.0.0"

  /** `export_settings`: `get_all()` without the API key. */
  function ExportOf(stored: Option<map<string, Value>>, now: Time): Export {
    Export(PluginVersion, now, AllOf(stored) - {ApiKey})
  }

  /** The export never holds the API key and holds every other setting `get_all()` reports. */
  lemma ExportHidesKey(stored: Option<map<string, Value>>, now: Time)
    ensures ApiKey !in ExportOf(stored, now).settings
    ensures forall k :: k in AllOf(stored) && k != ApiKey ==> k in ExportOf(stored, now).settings && ExportOf(stored, now).settings[k] == AllOf(stored)[k]
  {
  }

  /** Importing an export keeps the stored API key, since the export has none. */
  lemma ImportOfExportKeepsKey(env: SettingsEnv, stored: Option<map<string, Value>>, now: Time)
    ensures Sanitized(env, stored, ExportOf(stored, now).settings)[ApiKey] == GetOf(stored, ApiKey, Str(""))
  {
    SanitizedApiKey(env, stored, ExportOf(stored, now).settings);
  }

  // ---------------------------------------------------------------- update_option

  /**
   * The map `update_option` stores. In a request where `admin_init` has fired (the
   * admin screens and admin-ajax), `register_settings` has made `sanitize_settings` the
   * option's sanitize callback, so the value is sanitised against the stored option
   * first; when the option does not exist yet, `update_option` hands over to
   * `add_option`, which sanitises the already sanitised value once more. Elsewhere
   * (cron, the front end, the REST routes) the value is stored as given.
   */
  function Written(env: SettingsEnv, stored: Option<map<string, Value>>, value: map<string, Value>, registered: bool): map<string, Value> {
    if !registered then value
    else if stored.None? then Sanitized(env, stored, Sanitized(env, stored, value))
    else Sanitized(env, stored, value)
  }

  /** Without the callback the value is stored as given; with it, the stored map has the defaults' keys and a clamped mode and log level. */
  lemma WrittenSanitized(env: SettingsEnv, stored: Option<map<string, Value>>, value: map<string, Value>, registered: bool)
    ensures !registered ==> Written(env, stored, value, registered) == value
    ensures var out := Written(env, stored, value, registered);
            registered ==>
              out.Keys == Defaults.Keys &&
              out["processing_mode"].Str? && out["processing_mode"].s in Modes &&
              out["log_level"].Str? && out["log_level"].s in LogLevels
  {
    if registered {
      var once := Sanitized(env, stored, value);
      var out := Written(env, stored, value, registered);
      var input := if stored.None? then once else value;
      assert out == Sanitized(env, stored, input);
      SanitizedKeysAreDefaults(env, stored, input);
      SanitizedMode(env, stored, input);
      SanitizedLogLevel(env, stored, input);
    }
  }

  /** With the callback, a boolean field is stored as `!empty` of the value, even when the value is sanitised twice. */
  lemma RegisteredBool(env: SettingsEnv, stored: Option<map<string, Value>>, value: map<string, Value>, f: string)
    requires f in BoolFields
    ensures var out := Written(env, stored, value, true);
            f in out && out[f] == Bool(Truthy(Field(value, f)))
  {
    var once := Sanitized(env, stored, value);
    SanitizedBool(env, stored, value, f);
    if stored.None? {
      SanitizedBool(env, stored, once, f);
    }
  }

  /** With the callback, a submitted integer field is stored as `intval` of the value, even when sanitised twice. */
  lemma RegisteredInt(env: SettingsEnv, stored: Option<map<string, Value>>, value: map<string, Value>, f: string)
    requires f in IntFields && Field(value, f) != Null
    ensures var out := Written(env, stored, value, true);
            f in out && out[f] == Int(IntValOf(Field(value, f)))
  {
    var once := Sanitized(env, stored, value);
    SanitizedIntGiven(env, stored, value, f);
    if stored.None? {
      SanitizedIntGiven(env, stored, once, f);
    }
  }

  /** One pass of `sanitize_settings` stores `intval` of a submitted integer field. */
  lemma SanitizedIntGiven(env: SettingsEnv, stored: Option<map<string, Value>>, input: map<string, Value>, f: string)
    requires f in IntFields && Field(input, f) != Null
    ensures f in Sanitized(env, stored, input) && Sanitized(env, stored, input)[f] == Int(IntValOf(Field(input, f)))
  {
    SanitizedInt(env, stored, input, f);
  }

  /** With the callback, a log level that is not one of the four words is stored as `info`. */
  lemma RegisteredLogLevel(env: SettingsEnv, stored: Option<map<string, Value>>, value: map<string, Value>)
    requires !(Field(value, "log_level").Str? && Field(value, "log_level").s in LogLevels)
    ensures var out := Written(env, stored, value, true);
            "log_level" in out && out["log_level"] == Str("info")
  {
    var once := Sanitized(env, stored, value);
    SanitizedLogLevel(env, stored, value);
    if stored.None? {
      SanitizedLogLevel(env, stored, once);
    }
  }

  /** A stored non-null value is what `get` reads. */
  lemma GetOfStored(m: map<string, Value>, key: string, default: Value)
    requires key in m && m[key] != Null
    ensures GetOf(Some(m), key, default) == m[key]
  {
  }

  /**
   * With the callback, `set` stores a boolean field as `!empty` of the value and an
   * integer field as `intval` of it, whether or not the option existed, and an
   * unknown log level as `info`.
   */
  lemma RegisteredSetCoerces(env: SettingsEnv, stored: Option<map<string, Value>>, key: string, value: Value, default: Value)
    ensures key in BoolFields ==>
              GetOf(Some(Written(env, stored, SetOf(stored, key, value), true)), key, default) == Bool(Truthy(value))
    ensures key in IntFields && value != Null ==>
              GetOf(Some(Written(env, stored, SetOf(stored, key, value), true)), key, default) == Int(IntValOf(value))
    ensures key == "log_level" && !(value.Str? && value.s in LogLevels) ==>
              GetOf(Some(Written(env, stored, SetOf(stored, key, value), true)), key, default) == Str("info")
  {
    var written := SetOf(stored, key, value);
    var out := Written(env, stored, written, true);
    assert Field(written, key) == value;
    if key in BoolFields {
      RegisteredBool(env, stored, written, key);
      GetOfStored(out, key, default);
    }
    if key in IntFields && value != Null {
      RegisteredInt(env, stored, written, key);
      GetOfStored(out, key, default);
    }
    if key == "log_level" && !(value.Str? && value.s in LogLevels) {
      RegisteredLogLevel(env, stored, written);
      GetOfStored(out, key, default);
    }
  }

  /** With the callback, `set` of another key encrypts the stored (already encrypted) API key once more. */
  lemma RegisteredSetReencryptsKey(env: SettingsEnv, m: map<string, Value>, key: string, value: Value)
    requires key != ApiKey && ApiKey in m && Truthy(m[ApiKey])
    ensures Written(env, Some(m), SetOf(Some(m), key, value), true)[ApiKey] == Str(Encrypt(env, env.toText(m[ApiKey])))
  {
    SanitizedApiKey(env, Some(m), SetOf(Some(m), key, value));
  }

  /** With the callback, `reset()` over a stored option keeps the stored API key: the empty default falls back to it. */
  lemma RegisteredResetKeepsKey(env: SettingsEnv, m: map<string, Value>)
    ensures Written(env, Some(m), Defaults, true)[ApiKey] == GetOf(Some(m), ApiKey, Str(""))
  {
    assert Field(Defaults, ApiKey) == Str("");
    SanitizedApiKey(env, Some(m), Defaults);
  }

  /** With the callback, `reset()` still returns the boolean and integer fields to their defaults. */
  lemma RegisteredResetFields(env: SettingsEnv, stored: Option<map<string, Value>>, key: string)
    requires key in BoolFields || key in IntFields
    ensures var out := Written(env, stored, Defaults, true);
            key in out && out[key] == Defaults[key]
  {
    if key in BoolFields {
      BoolDefaults(key);
      RegisteredBool(env, stored, Defaults, key);
    } else {
      IntDefaults(key);
      RegisteredInt(env, stored, Defaults, key);
    }
  }

  /** With the callback, a log level that is one of the four words is stored as given. */
  lemma RegisteredLogLevelKept(env: SettingsEnv, stored: Option<map<string, Value>>, value: map<string, Value>)
    requires Field(value, "log_level").Str? && Field(value, "log_level").s in LogLevels
    ensures var out := Written(env, stored, value, true);
            "log_level" in out && out["log_level"] == Field(value, "log_level")
  {
    var once := Sanitized(env, stored, value);
    assert once["log_level"] == Field(value, "log_level");
  }

  /** With the callback, a processing mode that is `n8n` or `direct_api` is stored as given. */
  lemma RegisteredModeKept(env: SettingsEnv, stored: Option<map<string, Value>>, value: map<string, Value>)
    requires Field(value, "processing_mode").Str? && Field(value, "processing_mode").s in Modes
    ensures var out := Written(env, stored, value, true);
            "processing_mode" in out && out["processing_mode"] == Field(value, "processing_mode")
  {
    var once := Sanitized(env, stored, value);
    LoopedField(value, "processing_mode");
    FieldListsDisjoint("processing_mode");
    if stored.None? {
      LoopedField(once, "processing_mode");
    }
  }

  /** With the callback, `reset()` still stores the default processing mode and log level. */
  lemma RegisteredResetWords(env: SettingsEnv, stored: Option<map<string, Value>>, key: string)
    requires key == "processing_mode" || key == "log_level"
    ensures var out := Written(env, stored, Defaults, true);
            key in out && out[key] == Defaults[key]
  {
    var v := Defaults[key];
    assert Field(Defaults, key) == v;
    if key == "processing_mode" {
      assert v.Str? && v.s in Modes;
      RegisteredModeKept(env, stored, Defaults);
    } else {
      assert v.Str? && v.s in LogLevels;
      RegisteredLogLevelKept(env, stored, Defaults);
    }
  }

  datatype SettingsError = InvalidFormat | ImportFailed

  // ---------------------------------------------------------------- the store

  class SettingsStore {
    const env: SettingsEnv
    /** Whether `admin_init` has fired in this request, so that `sanitize_settings` is the option's sanitize callback. */
    const registered: bool
    /** The `rcp_settings` option; None while it does not exist. */
    var option: Option<map<string, Value>>

    constructor (env: SettingsEnv, registered: bool)
      ensures this.env == env && this.registered == registered && option == None
    {
      this.env := env;
      this.registered := registered;
      option := None;
    }

    /**
     * `update_option`: stores the map, through the sanitize callback when it is
     * registered (twice when the option is created), and reports whether the stored
     * value changed.
     */
    method UpdateOption(settings: map<string, Value>) returns (changed: bool)
      modifies this
      ensures option == Some(Written(env, old(option), settings, registered))
      ensures changed <==> old(option) != option
    {
      var value := settings;
      if registered {
        value := SanitizeSettings(value);
        if option.None? {
          value := SanitizeSettings(value);
        }
      }
      changed := option != Some(value);
      option := Some(value);
    }

    /** `get($key, $default)`. */
    method Get(key: string, default: Value) returns (v: Value)
      ensures v == GetOf(option, key, default)
      ensures v == Null ==> default == Null && key !in Defaults
    {
      var settings := option.GetOr(Defaults);
      if key in settings && settings[key] != Null {
        return settings[key];
      }
      if default != Null {
        return default;
      }
      assert forall k :: k in Defaults ==> Defaults[k] != Null;
      return DefaultOf(key);
    }

    /** `set($key, $value)`. */
    method Set(key: string, value: Value) returns (changed: bool)
      modifies this
      ensures option == Some(Written(env, old(option), SetOf(old(option), key, value), registered))
      ensures changed <==> old(option) != option
    {
      var settings := option.GetOr(Defaults);
      settings := settings[key := value];
      changed := UpdateOption(settings);
    }

    /** `get_all()`. */
    method GetAll() returns (all: map<string, Value>)
      ensures all == AllOf(option)
      ensures Defaults.Keys <= all.Keys
    {
      all := Merge(Defaults, option.GetOr(map[]));
    }

    /** `update($settings)`: merges over what `get_all()` reports. */
    method Update(settings: map<string, Value>) returns (changed: bool)
      modifies this
      ensures option == Some(Written(env, old(option), Merge(AllOf(old(option)), settings), registered))
      ensures changed <==> old(option) != option
    {
      var current := GetAll();
      changed := UpdateOption(Merge(current, settings));
    }

    /** `reset()`. */
    method Reset() returns (changed: bool)
      modifies this
      ensures option == Some(Written(env, old(option), Defaults, registered))
      ensures changed <==> old(option) != option
    {
      changed := UpdateOption(Defaults);
    }

    /** `sanitize_settings($input)`: the processing mode, the two field loops, then the text fields and the key. */
    method SanitizeSettings(input: map<string, Value>) returns (out: map<string, Value>)
      ensures out == Sanitized(env, option, input)
    {
      out := map["processing_mode" := ClampStrict(Field(input, "processing_mode"), Modes, "n8n")];
      out := FillFields(out, BoolFields, input, ToBool);
      out := FillFields(out, IntFields, input, ToInt);
      out := out["openai_temperature" := Float(env.toFloat(Coalesce(input, "openai_temperature", DefaultOf("openai_temperature"))))];
      out := out["default_post_status" := Str(env.sanitizeText(Coalesce(input, "default_post_status", Str("draft"))))];
      out := out["attribution_template" := Str(env.sanitizeTextarea(Coalesce(input, "attribution_template", Str(""))))];
      out := out["log_level" := ClampStrict(Field(input, "log_level"), LogLevels, "info")];
      out := out["openai_model" := Str(env.sanitizeText(Coalesce(input, "openai_model", Str("gpt-4"))))];
      out := out["cron_interval" := Str(env.sanitizeText(Coalesce(input, "cron_interval", Str("hourly"))))];
      if Truthy(Field(input, ApiKey)) {
        out := out[ApiKey := Str(Encrypt(env, env.toText(Field(input, ApiKey))))];
      } else {
        var kept := Get(ApiKey, Str(""));
        out := out[ApiKey := kept];
      }
    }

    /** `import_settings($data)`: rejects data without a `settings` array, else stores the sanitised settings; unchanged settings count as a failed import. */
    method ImportSettings(data: map<string, Value>) returns (r: Result<bool, SettingsError>)
      modifies this
      ensures !("settings" in data && data["settings"].Dict?) ==> r == Err(InvalidFormat) && option == old(option)
      ensures "settings" in data && data["settings"].Dict? ==>
                option == Some(Written(env, old(option), Sanitized(env, old(option), data["settings"].entries), registered)) &&
                r == (if old(option) == option then Err(ImportFailed) else Ok(true))
    {
      if !("settings" in data && data["settings"].Dict?) {
        return Err(InvalidFormat);
      }
      var sanitized := SanitizeSettings(data["settings"].entries);
      var changed := UpdateOption(sanitized);
      if changed {
        r := Ok(true);
      } else {
        r := Err(ImportFailed);
      }
    }
  }
}
