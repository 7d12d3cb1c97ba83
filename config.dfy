/** The runner's configuration (happier/src/config.rs): the home directory, the settings
    file `settings.json` inside it, and `load`, which resolves the hub URL, the token and
    the machine id, generating and saving a machine id the first time.

    Environment variables are an `Env` value (an unset or non-Unicode variable is `None`).
    Reading the settings file gives its text or nothing; parsing JSON text and generating a
    UUID are library routines, taken as parameters; the settings file write is an outcome
    parameter. */
module Config {
  import opened Base
  import opened Json

  const DEFAULT_HOME: string := "/root"
  const HOME_DIR_NAME: string := ".hapi"
  const DEFAULT_API_URL: string := "http://localhost:3006"

  /** The environment variables the runner reads. */
  datatype Env = Env(
    hapiHome: Option<string>,
    home: Option<string>,
    hapiApiUrl: Option<string>,
    cliApiToken: Option<string>,
    hapiMachineName: Option<string>)

  datatype Config = Config(
    apiUrl: string, token: string, machineId: string, machineName: Option<string>, hapiHome: string)

  /** The contents of `settings.json`: three known string fields and every other field
      kept as it was. */
  datatype Settings = Settings(
    machineId: Option<string>, cliApiToken: Option<string>, apiUrl: Option<string>, extra: map<string, Value>)

  const DEFAULT_SETTINGS: Settings := Settings(None, None, None, map[])

  /** `PathBuf::join` of a relative name: the name becomes the last component. */
  function PathJoin(base: string, name: string): (r: string)
    requires name != [] && name[0] != '/'
    ensures |base| + |name| <= |r| <= |base| + 1 + |name|
    ensures IsPrefix(base, r) && r[|r| - |name|..] == name
    ensures base != [] ==> r[|r| - |name| - 1] == '/'
  {
    if base == [] || base[|base| - 1] == '/' then base + name else base + "/" + name
  }

  /** `hapi_home`: `HAPI_HOME` when set, else `.hapi` under `HOME`, else under `/root`. */
  function HapiHome(env: Env): string {
    if env.hapiHome.Some? then env.hapiHome.value
    else PathJoin(env.home.GetOr(DEFAULT_HOME), HOME_DIR_NAME)
  }

  lemma HapiHomePrecedence(env: Env)
    ensures env.hapiHome.Some? ==> HapiHome(env) == env.hapiHome.value
    ensures env.hapiHome.None? && env.home.None? ==> HapiHome(env) == "/root/.hapi"
    ensures env.hapiHome.None? && env.home.Some? && env.home.value != [] ==>
      var h := HapiHome(env);
      IsPrefix(env.home.value, h) && h[|h| - 5..] == ".hapi" && h[|h| - 6] == '/'
  {
  }

  predicate IsKnownKey(key: string) {
    key == "machineId" || key == "cliApiToken" || key == "apiUrl"
  }

  /** No unknown field has a known field's name, as after any deserialisation. */
  predicate WellFormed(s: Settings) {
    forall key | key in s.extra :: !IsKnownKey(key)
  }

  /** Deserialising an `Option<String>` field: absent and `null` are `None`, a string is
      `Some`, anything else fails the whole deserialisation. */
  function OptionalString(v: Option<Value>): Option<Option<string>> {
    if v.None? || v.value.Null? then Some(None)
    else if v.value.Str? then Some(Some(v.value.s))
    else None
  }

  /** Deserialising `Settings` from a JSON value. */
  function SettingsOf(v: Value): (r: Option<Settings>)
    ensures r.Some? ==> v.Obj? && WellFormed(r.value)
    ensures r.Some? ==> forall key | key in v.fields && !IsKnownKey(key) :: key in r.value.extra && r.value.extra[key] == v.fields[key]
  {
    if !v.Obj? then None
    else
      var machineId := OptionalString(v.Get("machineId"));
      var token := OptionalString(v.Get("cliApiToken"));
      var apiUrl := OptionalString(v.Get("apiUrl"));
      if machineId.None? || token.None? || apiUrl.None? then None
      else Some(Settings(machineId.value, token.value, apiUrl.value,
                         map key | key in v.fields && !IsKnownKey(key) :: v.fields[key]))
  }

  function WithOptional(fields: map<string, Value>, key: string, v: Option<string>): map<string, Value> {
    if v.Some? then fields[key := Str(v.value)] else fields
  }

  /** Serialising `Settings`: the unknown fields, and each known field that is set. */
  function SettingsJson(s: Settings): Value {
    Obj(WithOptional(WithOptional(WithOptional(s.extra, "machineId", s.machineId),
                                  "cliApiToken", s.cliApiToken), "apiUrl", s.apiUrl))
  }

  /** Writing settings and reading them back gives the same settings: in particular no
      unknown field is lost. */
  lemma SettingsRoundTrip(s: Settings)
    requires WellFormed(s)
    ensures SettingsOf(SettingsJson(s)) == Some(s)
  {
    var v := SettingsJson(s);
    assert OptionalString(v.Get("machineId")) == Some(s.machineId);
    assert OptionalString(v.Get("cliApiToken")) == Some(s.cliApiToken);
    assert OptionalString(v.Get("apiUrl")) == Some(s.apiUrl);
    assert (map key | key in v.fields && !IsKnownKey(key) :: v.fields[key]) == s.extra;
  }

  /** `read_settings`: the parsed file, or the default settings when the file cannot be
      read or does not hold valid settings. */
  function ReadSettings(content: Option<string>, parseJson: string -> Option<Value>): (r: Settings)
    ensures WellFormed(r)
    ensures content.None? ==> r == DEFAULT_SETTINGS
    ensures content.Some? ==>
      var parsed := parseJson(content.value);
      if parsed.None? || SettingsOf(parsed.value).None? then r == DEFAULT_SETTINGS
      else r == SettingsOf(parsed.value).value
  {
    if content.None? then DEFAULT_SETTINGS
    else
      var parsed := parseJson(content.value);
      if parsed.None? then DEFAULT_SETTINGS
      else SettingsOf(parsed.value).GetOr(DEFAULT_SETTINGS)
  }

  /** A file holding written settings is read back as those settings. */
  lemma ReadWrittenSettings(s: Settings, text: string, parseJson: string -> Option<Value>)
    requires WellFormed(s) && parseJson(text) == Some(SettingsJson(s))
    ensures ReadSettings(Some(text), parseJson) == s
  {
    SettingsRoundTrip(s);
  }

  /** A file whose JSON is not an object, or whose known fields are not strings, is read as
      the default settings. */
  lemma ReadMalformedSettings(text: string, parseJson: string -> Option<Value>)
    requires parseJson(text).Some?
    requires var v := parseJson(text).value;
      !v.Obj? || (exists key | key in {"machineId", "cliApiToken", "apiUrl"} ::
                    v.Get(key).Some? && !v.Get(key).value.Null? && !v.Get(key).value.Str?)
    ensures ReadSettings(Some(text), parseJson) == DEFAULT_SETTINGS
  {
  }

  /** The hub URL: `HAPI_API_URL`, then the settings' `apiUrl`, then the local default. */
  function ApiUrl(env: Env, s: Settings): string {
    env.hapiApiUrl.Or(s.apiUrl).GetOr(DEFAULT_API_URL)
  }

  /** The token: `CLI_API_TOKEN`, then the settings' `cliApiToken`, else none. */
  function Token(env: Env, s: Settings): Option<string> {
    env.cliApiToken.Or(s.cliApiToken)
  }

  predicate HasMachineId(s: Settings) {
    s.machineId.Some? && s.machineId.value != []
  }

  /** `TokenMissing` is reported as "CLI_API_TOKEN not set (env or settings.json)"; a failed
      write of the settings file reports the I/O error. */
  datatype LoadError = TokenMissing | WriteFailed

  datatype LoadResult = Loaded(config: Config) | LoadFailed(error: LoadError)

  /** What `load` returns, and the settings it writes, if any. */
  datatype LoadOutcome = LoadOutcome(result: LoadResult, written: Option<Settings>)

  /** `load` on the settings as read. */
  function Resolve(env: Env, stored: Settings, freshId: string, writeOk: bool): (r: LoadOutcome) {
    var token := Token(env, stored);
    if token.None? then LoadOutcome(LoadFailed(TokenMissing), None)
    else if HasMachineId(stored) then
      LoadOutcome(Loaded(Config(ApiUrl(env, stored), token.value, stored.machineId.value,
                                env.hapiMachineName, HapiHome(env))), None)
    else
      var updated := stored.(machineId := Some(freshId));
      if writeOk then
        LoadOutcome(Loaded(Config(ApiUrl(env, stored), token.value, freshId, env.hapiMachineName, HapiHome(env))),
                    Some(updated))
      else LoadOutcome(LoadFailed(WriteFailed), Some(updated))
  }

  /** `load`: resolve each setting by precedence; keep a stored machine id, or generate one
      and write it back to the settings file. */
  method Load(env: Env, content: Option<string>, parseJson: string -> Option<Value>, newId: () -> string, writeOk: bool)
    returns (result: LoadResult, written: Option<Settings>)
    ensures LoadOutcome(result, written) == Resolve(env, ReadSettings(content, parseJson), newId(), writeOk)
  {
    var hapiHome := HapiHome(env);
    var settings := ReadSettings(content, parseJson);
    var apiUrl := ApiUrl(env, settings);
    var token := Token(env, settings);
    written := None;
    if token.None? {
      return LoadFailed(TokenMissing), None;
    }
    var machineId;
    if HasMachineId(settings) {
      machineId := settings.machineId.value;
    } else {
      machineId := newId();
      settings := settings.(machineId := Some(machineId));
      written := Some(settings);
      if !writeOk {
        return LoadFailed(WriteFailed), written;
      }
    }
    result := Loaded(Config(apiUrl, token.value, machineId, env.hapiMachineName, hapiHome));
  }

  // ------------------------------------------------------------ properties

  /** The precedence of each setting, and the token check coming before any write. */
  lemma ResolvePrecedence(env: Env, stored: Settings, freshId: string, writeOk: bool)
    ensures var r := Resolve(env, stored, freshId, writeOk);
      && (r.result == LoadFailed(TokenMissing) <==> env.cliApiToken.None? && stored.cliApiToken.None?)
      && (r.result == LoadFailed(TokenMissing) ==> r.written.None?)
      && (r.result.Loaded? ==>
            && (env.hapiApiUrl.Some? ==> r.result.config.apiUrl == env.hapiApiUrl.value)
            && (env.hapiApiUrl.None? && stored.apiUrl.Some? ==> r.result.config.apiUrl == stored.apiUrl.value)
            && (env.hapiApiUrl.None? && stored.apiUrl.None? ==> r.result.config.apiUrl == DEFAULT_API_URL)
            && (env.cliApiToken.Some? ==> r.result.config.token == env.cliApiToken.value)
            && (env.cliApiToken.None? ==> r.result.config.token == stored.cliApiToken.value)
            && r.result.config.machineName == env.hapiMachineName)
  {
  }

  /** A stored non-empty machine id is kept and nothing is written; otherwise the new id is
      written with every other setting unchanged, and used only if the write succeeded. */
  lemma ResolveMachineId(env: Env, stored: Settings, freshId: string, writeOk: bool)
    requires Token(env, stored).Some?
    ensures var r := Resolve(env, stored, freshId, writeOk);
      && (r.written.Some? <==> !HasMachineId(stored))
      && (HasMachineId(stored) ==> r.result.Loaded? && r.result.config.machineId == stored.machineId.value)
      && (r.written.Some? ==> r.written.value == stored.(machineId := Some(freshId)))
      && (r.written.Some? ==> (r.result.Loaded? <==> writeOk))
      && (r.written.Some? && writeOk ==> r.result.config.machineId == freshId)
  {
  }

  /** Once a generated id has been saved, the next start reads it back, keeps it and writes
      nothing, with the same configuration. */
  lemma SavedIdIsKept(env: Env, stored: Settings, freshId: string, text: string,
                      parseJson: string -> Option<Value>, laterId: string, writeOk: bool)
    requires WellFormed(stored) && freshId != []
    requires Resolve(env, stored, freshId, true).written.Some? && Resolve(env, stored, freshId, true).result.Loaded?
    requires parseJson(text) == Some(SettingsJson(Resolve(env, stored, freshId, true).written.value))
    ensures Resolve(env, ReadSettings(Some(text), parseJson), laterId, writeOk)
            == LoadOutcome(Resolve(env, stored, freshId, true).result, None)
  {
    var saved := stored.(machineId := Some(freshId));
    assert WellFormed(saved);
    ReadWrittenSettings(saved, text, parseJson);
  }
}
