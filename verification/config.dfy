/**
 * `ConfigManager`: the extension's settings. The global YAML file
 * `~/.onboardbase/.onboardbase.yaml` holds a `scoped` mapping from a
 * directory to the settings of that directory (token, API and dashboard
 * hosts, password settings); a project file in the workspace may hold a
 * `setup` record. The manager merges the settings of the current directory
 * into its in-memory `store`, keeps the RSA keys of the session, and
 * read-modify-writes the global file. Files are fields of the class: a
 * missing file is `None`, and writing a file replaces its field.
 */
module Config {
  import opened Common
  import SecretCrypto
  import PosixPath
  import ShellRc

  // ---------------------------------------------------------------------
  // Values of the YAML documents and of the store
  // ---------------------------------------------------------------------

  /** A value held under a key: YAML scalars, `undefined`, or a nested mapping or list. */
  datatype Scalar = Str(s: string) | Bool(b: bool) | Num(n: int) | Null | Undef | Nested

  /** JavaScript truthiness. */
  predicate Truthy(v: Scalar)
  {
    match v
    case Str(s) => s != ""
    case Bool(b) => b
    case Num(n) => n != 0
    case Null => false
    case Undef => false
    case Nested => true
  }

  /** The keys and values of one mapping: the settings of a directory, the `setup` record, or the store. */
  type Fields = map<string, Scalar>

  /** `obj[name]`: the value, or `undefined` when the key is absent. */
  function Field(f: Fields, name: string): Scalar
  {
    if name in f then f[name] else Undef
  }

  /** `obj[name] = v` in an object that is then written as YAML, where a key whose value is `undefined` is left out. */
  function SetField(f: Fields, name: string, v: Scalar): (r: Fields)
    ensures Field(r, name) == v
    ensures v == Undef <==> name !in r
    ensures forall k :: k in f && k != name ==> k in r && r[k] == f[k]
    ensures forall k :: k in r ==> k in f || k == name
  {
    if v == Undef then f - {name} else f[name := v]
  }

  function OptStr(v: Option<string>): Scalar
  {
    if v.Some? then Str(v.value) else Undef
  }

  function OptBool(v: Option<bool>): Scalar
  {
    if v.Some? then Bool(v.value) else Undef
  }

  /** The global config file: its `scoped` mapping (`None` when it is absent or null) and its other top-level keys. */
  datatype ConfigFile = ConfigFile(scoped: Option<map<string, Fields>>, others: map<string, Scalar>)

  /** The project config file: its `setup` record, if it has one. */
  datatype ProjectFile = ProjectFile(setup: Option<Fields>)

  datatype RsaKeys = RsaKeys(publicKey: Option<string>, privateKey: Option<string>, backendPublicKey: Option<string>)

  const DefaultApiHost := "https://api.onboardbase.com/graphql"
  const DefaultDashboardHost := "https://app.onboardbase.com"
  const RcMarker := "# onboardbase"
  const RcCommand := "onboardbase config:set --re-authenticate"
  /** What is appended to the shell start-up file: a blank line, the marker line and the command line. */
  const MarkerBlock := "\n\n" + RcMarker + "\n" + RcCommand
  /** The per-scope flag that a password was entered for the current session. */
  const SessionFlag := "requirePasswordForCurrentSession"
  /** The fields of a scope that an update writes. */
  const TokenKey := "token"
  const ApiHostKey := "api-host"
  const DashboardHostKey := "dashboard-host"
  const RequirePasswordKey := "requirePassword"
  const PasswordKey := "password"

  /** `{ scoped: {}, 'version-check': {} }`, the file written when there is none. */
  const FreshConfig := ConfigFile(Some(map[]), map["version-check" := Nested])

  // ---------------------------------------------------------------------
  // init: scope lookup and merge into the store
  // ---------------------------------------------------------------------

  /** `directoryScopes[cwd] ?? directoryScopes['/']`. */
  function LookupScope(scoped: map<string, Fields>, cwd: string): Option<Fields>
  {
    if cwd in scoped then Some(scoped[cwd])
    else if "/" in scoped then Some(scoped["/"])
    else None
  }

  /**
   * The store after `init` read a scope: the scope's settings, overridden
   * by the project file's `setup` when there is a project file, are
   * assigned over the store.
   */
  function MergeStore(store: Fields, scope: Option<Fields>, project: Option<ProjectFile>): Fields
  {
    var finalConfig :=
      if project.Some? then
        Some((if scope.Some? then scope.value else map[]) + (if project.value.setup.Some? then project.value.setup.value else map[]))
      else scope;
    if finalConfig.Some? then store + finalConfig.value else store
  }

  /**
   * Merging, not replacing: a key takes its value from the project's
   * `setup` first, then from the scope, and otherwise keeps the value it
   * had in the store.
   */
  lemma MergeStoreFields(store: Fields, scope: Option<Fields>, project: Option<ProjectFile>, k: string)
    ensures var setup := if project.Some? && project.value.setup.Some? then project.value.setup.value else map[];
      var fromScope := if scope.Some? then scope.value else map[];
      Field(MergeStore(store, scope, project), k)
        == if k in setup then setup[k] else if k in fromScope then fromScope[k] else Field(store, k)
  {
  }

  /** The scope lookup falls back to `/` only when the current directory has no scope of its own. */
  lemma LookupScopeFallback(scoped: map<string, Fields>, cwd: string)
    ensures LookupScope(scoped, cwd).None? <==> cwd !in scoped && "/" !in scoped
    ensures LookupScope(scoped, cwd).Some? ==>
      LookupScope(scoped, cwd).value == (if cwd in scoped then scoped[cwd] else scoped["/"])
  {
  }

  // ---------------------------------------------------------------------
  // deleteToken, getDirectoriesThatRequiresPassword, updateDirectorySessionConfig
  // ---------------------------------------------------------------------

  /** The directories whose `requirePassword` is truthy. */
  function PasswordScopes(scoped: map<string, Fields>): set<string>
  {
    set k | k in scoped && Truthy(Field(scoped[k], RequirePasswordKey))
  }

  /** Every scope but the named one, each unchanged. */
  function DeleteScope(scoped: map<string, Fields>, scope: string): map<string, Fields>
  {
    map k | k in scoped && k != scope :: scoped[k]
  }

  /** Deleting a scope removes exactly that directory, once and for all, and no longer asks a password for it. */
  lemma DeleteScopeFrame(scoped: map<string, Fields>, scope: string)
    ensures DeleteScope(scoped, scope).Keys == scoped.Keys - {scope}
    ensures forall k :: k in DeleteScope(scoped, scope) ==> DeleteScope(scoped, scope)[k] == scoped[k]
    ensures DeleteScope(DeleteScope(scoped, scope), scope) == DeleteScope(scoped, scope)
    ensures PasswordScopes(DeleteScope(scoped, scope)) == PasswordScopes(scoped) - {scope}
  {
  }

  /** The scope map after `updateDirectorySessionConfig`: the named scope, created if absent, gets the flag. */
  function WithSessionFlag(scoped: map<string, Fields>, scope: string, flag: bool): map<string, Fields>
  {
    var current := if scope in scoped then scoped[scope] else map[];
    scoped[scope := current[SessionFlag := Bool(flag)]]
  }

  /**
   * Setting the session flag changes that one field of that one scope:
   * every other field and every other scope stay as they were, and so do
   * the directories that require a password.
   */
  lemma SessionFlagFrame(scoped: map<string, Fields>, scope: string, flag: bool)
    ensures var r := WithSessionFlag(scoped, scope, flag);
      r.Keys == scoped.Keys + {scope} &&
      Field(r[scope], SessionFlag) == Bool(flag) &&
      (forall k :: k != SessionFlag ==>
        Field(r[scope], k) == (if scope in scoped then Field(scoped[scope], k) else Undef)) &&
      (forall d :: d in scoped && d != scope ==> r[d] == scoped[d])
    ensures scope in scoped ==> PasswordScopes(WithSessionFlag(scoped, scope, flag)) == PasswordScopes(scoped)
  {
    var r := WithSessionFlag(scoped, scope, flag);
    if scope in scoped {
      assert Field(r[scope], RequirePasswordKey) == Field(scoped[scope], RequirePasswordKey);
      assert forall d :: d in scoped ==> Field(r[d], RequirePasswordKey) == Field(scoped[d], RequirePasswordKey);
    }
  }

  // ---------------------------------------------------------------------
  // updateGlobalConfig
  // ---------------------------------------------------------------------

  /** The arguments of `updateGlobalConfig`; `None` is an argument left `undefined`. */
  datatype GlobalUpdate = GlobalUpdate(
    scope: Option<string>,
    token: Option<string>,
    apiHost: Option<string>,
    dashboardHost: Option<string>,
    requirePassword: Option<bool>,
    password: Option<string>,
    requirePasswordForCurrentSession: Option<bool>)

  /** `scope = '/'`: the default applies when the argument is `undefined`. */
  function ScopeName(u: GlobalUpdate): string
  {
    if u.scope.Some? then u.scope.value else "/"
  }

  /** `x ?? fallback` for a string argument. */
  function OrDefault(x: Option<string>, fallback: string): string
  {
    if x.Some? then x.value else fallback
  }

  /** `String(password)`: "undefined" for a missing password. */
  function PasswordText(u: GlobalUpdate): string
  {
    ShellRc.Stringify(u.password)
  }

  /**
   * The settings of the scope after an update: the six written fields over
   * whatever the scope held; fields written as `undefined` vanish from the
   * file. `encryptedPassword` is the encryption of `String(password)`.
   */
  function Upsert(current: Fields, u: GlobalUpdate, encryptedPassword: string): Fields
  {
    var a := SetField(current, TokenKey, OptStr(u.token));
    var b := SetField(a, ApiHostKey, Str(OrDefault(u.apiHost, DefaultApiHost)));
    var c := SetField(b, DashboardHostKey, Str(OrDefault(u.dashboardHost, DefaultDashboardHost)));
    var d := SetField(c, RequirePasswordKey, OptBool(u.requirePassword));
    var e := SetField(d, PasswordKey, Str(encryptedPassword));
    SetField(e, SessionFlag, OptBool(u.requirePasswordForCurrentSession))
  }

  predicate Written(k: string)
  {
    k == TokenKey || k == ApiHostKey || k == DashboardHostKey || k == RequirePasswordKey
    || k == PasswordKey || k == SessionFlag
  }

  /** The global file after an update: the scope upserted; other top-level keys survive only when `scoped` was there. */
  function UpdatedConfig(config: ConfigFile, u: GlobalUpdate, encryptedPassword: string): ConfigFile
  {
    var s := ScopeName(u);
    if config.scoped.Some? then
      var scoped := config.scoped.value;
      var current := if s in scoped then scoped[s] else map[];
      ConfigFile(Some(scoped[s := Upsert(current, u, encryptedPassword)]), config.others)
    else
      ConfigFile(Some(map[s := Upsert(map[], u, encryptedPassword)]), map[])
  }

  /**
   * An update writes the scope (default `/`): the API and dashboard hosts
   * fall back to the default hosts, the password is always written, fields
   * other than the six written ones keep their values, and every other
   * scope is untouched.
   */
  lemma UpsertFrame(config: ConfigFile, u: GlobalUpdate, encryptedPassword: string)
    ensures var r := UpdatedConfig(config, u, encryptedPassword);
      var s := ScopeName(u);
      r.scoped.Some? && s in r.scoped.value &&
      Field(r.scoped.value[s], ApiHostKey) == Str(if u.apiHost.Some? then u.apiHost.value else DefaultApiHost) &&
      Field(r.scoped.value[s], DashboardHostKey) == Str(if u.dashboardHost.Some? then u.dashboardHost.value else DefaultDashboardHost) &&
      Field(r.scoped.value[s], PasswordKey) == Str(encryptedPassword) &&
      Field(r.scoped.value[s], TokenKey) == OptStr(u.token) &&
      Field(r.scoped.value[s], RequirePasswordKey) == OptBool(u.requirePassword) &&
      Field(r.scoped.value[s], SessionFlag) == OptBool(u.requirePasswordForCurrentSession)
    ensures var r := UpdatedConfig(config, u, encryptedPassword);
      var s := ScopeName(u);
      config.scoped.Some? && s in config.scoped.value ==>
        forall k :: !Written(k) ==> Field(r.scoped.value[s], k) == Field(config.scoped.value[s], k)
    ensures var r := UpdatedConfig(config, u, encryptedPassword);
      config.scoped.Some? ==>
        r.others == config.others &&
        r.scoped.value.Keys == config.scoped.value.Keys + {ScopeName(u)} &&
        forall d :: d in config.scoped.value && d != ScopeName(u) ==> r.scoped.value[d] == config.scoped.value[d]
  {
    var s := ScopeName(u);
    var current := if config.scoped.Some? && s in config.scoped.value then config.scoped.value[s] else map[];
    UpsertFields(current, u, encryptedPassword);
  }

  lemma UpsertFields(current: Fields, u: GlobalUpdate, encryptedPassword: string)
    ensures var r := Upsert(current, u, encryptedPassword);
      Field(r, ApiHostKey) == Str(OrDefault(u.apiHost, DefaultApiHost)) &&
      Field(r, DashboardHostKey) == Str(OrDefault(u.dashboardHost, DefaultDashboardHost)) &&
      Field(r, PasswordKey) == Str(encryptedPassword) &&
      Field(r, TokenKey) == OptStr(u.token) &&
      Field(r, RequirePasswordKey) == OptBool(u.requirePassword) &&
      Field(r, SessionFlag) == OptBool(u.requirePasswordForCurrentSession) &&
      forall k :: !Written(k) ==> Field(r, k) == Field(current, k)
  {
  }

  /** The shell start-up file after the marker block is appended, unless a line already is the marker. */
  function AppendMarker(existingData: string): string
  {
    if RcMarker in Split(existingData, '\n') then existingData
    else existingData + MarkerBlock
  }

  /**
   * The marker block is appended at most once: afterwards a line is the
   * marker, the old text is kept as a prefix, and appending again changes
   * nothing.
   */
  lemma AppendMarkerOnce(existingData: string)
    ensures RcMarker in Split(AppendMarker(existingData), '\n')
    ensures |existingData| <= |AppendMarker(existingData)| && AppendMarker(existingData)[..|existingData|] == existingData
    ensures AppendMarker(AppendMarker(existingData)) == AppendMarker(existingData)
  {
    if RcMarker !in Split(existingData, '\n') {
      MarkerLines();
      LineAfterBlank(existingData, RcMarker, RcCommand);
      var r := existingData + MarkerBlock;
      assert r[..|existingData|] == existingData;
    }
  }

  /** The marker and the command are one line each. */
  lemma MarkerLines()
    ensures '\n' !in RcMarker && '\n' !in RcCommand
  {
    assert forall i :: 0 <= i < |RcCommand| ==> RcCommand[i] != '\n';
  }

  /** The line `m` of `x + "\n\n" + m + "\n" + cmd` is one of its lines. */
  lemma LineAfterBlank(x: string, m: string, cmd: string)
    requires '\n' !in m && '\n' !in cmd
    ensures m in Split(x + ("\n\n" + m + "\n" + cmd), '\n')
  {
    var nl := ['\n'];
    var rest := m + nl + cmd;
    var tail := [] + nl + rest;
    assert x + ("\n\n" + m + "\n" + cmd) == x + nl + tail;
    SplitConcat(m, cmd, '\n');
    SplitNoSeparator(m, '\n');
    assert Split(rest, '\n')[0] == m;
    SplitConcat([], rest, '\n');
    assert m in Split(tail, '\n');
    SplitConcat(x, tail, '\n');
  }

  // ---------------------------------------------------------------------
  // getHttpInstance
  // ---------------------------------------------------------------------

  /** `scope?.['api-host']` followed by `??`: the value, unless the scope or the value is null or undefined. */
  function ApiHostOf(scoped: map<string, Fields>, dir: string): Option<Scalar>
  {
    if HasApiHost(scoped, dir) then Some(scoped[dir][ApiHostKey]) else None
  }

  /** The scope of `dir` exists and holds an `api-host` that is neither null nor undefined. */
  predicate HasApiHost(scoped: map<string, Fields>, dir: string)
  {
    dir in scoped && Field(scoped[dir], ApiHostKey) != Null && Field(scoped[dir], ApiHostKey) != Undef
  }

  /**
   * The base URL of the HTTP client: a truthy `url`; else the `api-host` of
   * the current directory's scope, else of the `/` scope, else the default
   * host. Reading a scope of an absent `scoped` throws.
   */
  function BaseUrl(url: Option<string>, configs: Option<map<string, Fields>>, cwd: string): (r: Result<Scalar, JsError>)
    ensures url.Some? && url.value != "" ==> r == Success(Str(url.value))
    ensures !(url.Some? && url.value != "") && configs.None? ==> r == Failure(TypeError("allConfigs[cwd]"))
    ensures !(url.Some? && url.value != "") && configs.Some? && HasApiHost(configs.value, cwd) ==>
      r == Success(configs.value[cwd][ApiHostKey])
    ensures !(url.Some? && url.value != "") && configs.Some? && !HasApiHost(configs.value, cwd) && HasApiHost(configs.value, "/") ==>
      r == Success(configs.value["/"][ApiHostKey])
    ensures !(url.Some? && url.value != "") && configs.Some? && !HasApiHost(configs.value, cwd) && !HasApiHost(configs.value, "/") ==>
      r == Success(Str(DefaultApiHost))
  {
    if url.Some? && url.value != "" then Success(Str(url.value))
    else if configs.None? then Failure(TypeError("allConfigs[cwd]"))
    else
      var scoped := configs.value;
      match ApiHostOf(scoped, cwd)
      case Some(h) => Success(h)
      case None =>
        match ApiHostOf(scoped, "/")
        case Some(h) => Success(h)
        case None => Success(Str(DefaultApiHost))
  }

  /**
   * The base URL falls back host by host, not scope by scope: when the
   * current directory has a scope without an `api-host`, `init` reads that
   * scope, while the HTTP client takes the `/` scope's host.
   */
  lemma BaseUrlFallsBackPerHost(scoped: map<string, Fields>, cwd: string, host: string)
    requires cwd != "/" && cwd in scoped && ApiHostKey !in scoped[cwd]
    requires "/" in scoped && Field(scoped["/"], ApiHostKey) == Str(host)
    ensures LookupScope(scoped, cwd) == Some(scoped[cwd])
    ensures BaseUrl(None, Some(scoped), cwd) == Success(Str(host))
  {
  }

  /** With no scope holding an `api-host` and no `url`, the client talks to the default API host. */
  lemma BaseUrlDefault(scoped: map<string, Fields>, cwd: string)
    requires forall d :: d in scoped ==> ApiHostKey !in scoped[d]
    ensures BaseUrl(None, Some(scoped), cwd) == Success(Str(DefaultApiHost))
    ensures BaseUrl(Some(""), Some(scoped), cwd) == Success(Str(DefaultApiHost))
  {
  }

  // ---------------------------------------------------------------------
  // The manager
  // ---------------------------------------------------------------------

  class ConfigManager {
    var store: Fields
    var rsaKeys: RsaKeys
    var authApiHost: string
    /** The workspace folder the extension runs in. */
    const cwd: string
    /** The path of the global config file. */
    const onboardbaseConfigFile: string
    /** The global config file, when it exists. */
    var globalFile: Option<ConfigFile>
    /** The project config file chosen for `cwd`, when it exists. */
    var projectFile: Option<ProjectFile>
    /** The text of the shell start-up files, by path. */
    var rcFiles: map<string, string>

    constructor(home: string, cwd: string, globalFile: Option<ConfigFile>, projectFile: Option<ProjectFile>,
                rcFiles: map<string, string>)
      ensures this.cwd == cwd && this.globalFile == globalFile && this.projectFile == projectFile && this.rcFiles == rcFiles
      ensures onboardbaseConfigFile == PosixPath.Join(PosixPath.Join(home, ".onboardbase"), ".onboardbase.yaml")
      ensures store == map[] && rsaKeys == RsaKeys(None, None, None) && authApiHost == ""
    {
      store := map[];
      rsaKeys := RsaKeys(None, None, None);
      authApiHost := "";
      this.cwd := cwd;
      onboardbaseConfigFile := PosixPath.Join(PosixPath.Join(home, ".onboardbase"), ".onboardbase.yaml");
      this.globalFile := globalFile;
      this.projectFile := projectFile;
      this.rcFiles := rcFiles;
    }

    method SetAuthApiHost(apiHost: string)
      modifies this
      ensures authApiHost == apiHost
      ensures store == old(store) && rsaKeys == old(rsaKeys) && globalFile == old(globalFile)
      ensures projectFile == old(projectFile) && rcFiles == old(rcFiles)
    {
      authApiHost := apiHost;
    }

    /**
     * `init(command)`. Without a global file, an `ONBOARDBASE_TOKEN` in the
     * environment sets the store to the three environment values and nothing
     * is written; otherwise a fresh file is written. With a global file, the
     * scope of `cwd` (or of `/`) and the project `setup` are merged into the
     * store. The result tells whether the login error message was shown.
     */
    method Init(command: Option<string>, envToken: Option<string>, envProject: Option<string>, envEnvironment: Option<string>)
      returns (r: Result<bool, JsError>)
      modifies this
      ensures rsaKeys == old(rsaKeys) && authApiHost == old(authApiHost)
      ensures projectFile == old(projectFile) && rcFiles == old(rcFiles)
      ensures old(globalFile).None? && envToken.Some? ==>
        r == Success(false) && globalFile.None? &&
        store == map["project" := OptStr(envProject), "environment" := OptStr(envEnvironment), TokenKey := Str(envToken.value)]
      ensures old(globalFile).None? && envToken.None? ==>
        r == Success(false) && globalFile == Some(FreshConfig) && store == old(store)
      ensures old(globalFile).Some? && old(globalFile).value.scoped.None? ==>
        r == Failure(TypeError("directoryScopes[currentDirectory]")) && globalFile == old(globalFile) && store == old(store)
      ensures old(globalFile).Some? && old(globalFile).value.scoped.Some? ==>
        var scope := LookupScope(old(globalFile).value.scoped.value, cwd);
        r == Success(scope.None? && command != Some("Login")) && globalFile == old(globalFile) &&
        store == MergeStore(old(store), scope, projectFile)
    {
      if globalFile.None? {
        if envToken.Some? {
          store := map["project" := OptStr(envProject), "environment" := OptStr(envEnvironment), TokenKey := Str(envToken.value)];
          return Success(false);
        }
        globalFile := Some(FreshConfig);
        return Success(false);
      }
      var config := globalFile.value;
      if config.scoped.None? {
        return Failure(TypeError("directoryScopes[currentDirectory]"));
      }
      var directoryScopes := config.scoped.value;
      var projectScope := LookupScope(directoryScopes, cwd);
      var authError := projectScope.None? && command != Some("Login");
      var finalConfig := projectScope;
      if projectFile.Some? {
        var base := if finalConfig.Some? then finalConfig.value else map[];
        var setup := if projectFile.value.setup.Some? then projectFile.value.setup.value else map[];
        finalConfig := Some(base + setup);
      }
      if finalConfig.Some? {
        store := store + finalConfig.value;
      }
      return Success(authError);
    }

    /** `getConfigs()`: the `scoped` mapping, `{}` without a global file, `undefined` when the file has none. */
    function GetConfigs(): (r: Option<map<string, Fields>>)
      reads this
      ensures globalFile.None? ==> r == Some(map[])
      ensures globalFile.Some? ==> r == globalFile.value.scoped
    {
      if globalFile.Some? then globalFile.value.scoped else Some(map[])
    }

    /** `getScopedConfig(directory)`: the settings of `directory` (default `cwd`); reading a scope of `undefined` throws. */
    function GetScopedConfig(directory: Option<string>): (r: Result<Option<Fields>, JsError>)
      reads this
      ensures r.Failure? <==> GetConfigs().None?
      ensures r.Success? ==>
        var d := if directory.Some? then directory.value else cwd;
        (r.value.Some? <==> d in GetConfigs().value) && (r.value.Some? ==> r.value.value == GetConfigs().value[d])
    {
      var configs := GetConfigs();
      if configs.None? then Failure(TypeError("directoryScopes[directory]"))
      else
        var d := if directory.Some? then directory.value else cwd;
        if d in configs.value then Success(Some(configs.value[d])) else Success(None)
    }

    /**
     * `isNewServiceToken()`: whether the stored token is shorter than 43
     * characters. A missing or null token throws; a value without a
     * `length` compares as `undefined < 43`, which is false.
     */
    function IsNewServiceToken(): (r: Result<bool, JsError>)
      reads this
      ensures r.Failure? <==> Field(store, TokenKey) == Undef || Field(store, TokenKey) == Null
      ensures r.Success? && r.value ==> Field(store, TokenKey).Str? && |Field(store, TokenKey).s| < 43
      ensures Field(store, TokenKey).Str? ==> r == Success(|Field(store, TokenKey).s| < 43)
    {
      match Field(store, TokenKey)
      case Str(s) => Success(|s| < 43)
      case Undef => Failure(TypeError("token.length"))
      case Null => Failure(TypeError("token.length"))
      case _ => Success(false)
    }

    method StoreRsaKeys(publicKey: string, privateKey: string)
      modifies this
      ensures rsaKeys == RsaKeys(Some(publicKey), Some(privateKey), old(rsaKeys).backendPublicKey)
      ensures store == old(store) && authApiHost == old(authApiHost) && globalFile == old(globalFile)
      ensures projectFile == old(projectFile) && rcFiles == old(rcFiles)
    {
      rsaKeys := rsaKeys.(privateKey := Some(privateKey));
      rsaKeys := rsaKeys.(publicKey := Some(publicKey));
    }

    method StoreBackendPublicKey(publicKey: string)
      modifies this
      ensures rsaKeys == old(rsaKeys).(backendPublicKey := Some(publicKey))
      ensures store == old(store) && authApiHost == old(authApiHost) && globalFile == old(globalFile)
      ensures projectFile == old(projectFile) && rcFiles == old(rcFiles)
    {
      rsaKeys := rsaKeys.(backendPublicKey := Some(publicKey));
    }

    /** `deleteToken({scope})`: the file is rewritten holding only `scoped`, without the named scope. */
    method DeleteToken(scope: string) returns (r: Result<(), JsError>)
      modifies this
      ensures store == old(store) && rsaKeys == old(rsaKeys) && authApiHost == old(authApiHost)
      ensures projectFile == old(projectFile) && rcFiles == old(rcFiles)
      ensures old(globalFile).None? ==> r == Failure(FileNotFound(onboardbaseConfigFile)) && globalFile == old(globalFile)
      ensures old(globalFile).Some? && old(globalFile).value.scoped.None? ==>
        r == Failure(TypeError("Object.keys(config.scoped)")) && globalFile == old(globalFile)
      ensures old(globalFile).Some? && old(globalFile).value.scoped.Some? ==>
        r == Success(()) && globalFile == Some(ConfigFile(Some(DeleteScope(old(globalFile).value.scoped.value, scope)), map[]))
    {
      if globalFile.None? {
        return Failure(FileNotFound(onboardbaseConfigFile));
      }
      if globalFile.value.scoped.None? {
        return Failure(TypeError("Object.keys(config.scoped)"));
      }
      var scoped := globalFile.value.scoped.value;
      var data: map<string, Fields> := map[];
      var keys := scoped.Keys;
      while keys != {}
        invariant keys <= scoped.Keys
        invariant forall k :: k in data <==> k in scoped && k !in keys && k != scope
        invariant forall k :: k in data ==> data[k] == scoped[k]
        decreases |keys|
      {
        var scopeConfig :| scopeConfig in keys;
        if scopeConfig != scope {
          data := data[scopeConfig := scoped[scopeConfig]];
        }
        keys := keys - {scopeConfig};
      }
      assert data == DeleteScope(scoped, scope);
      globalFile := Some(ConfigFile(Some(data), map[]));
      return Success(());
    }

    /** `getDirectoriesThatRequiresPassword()`: each directory whose `requirePassword` is truthy, once. */
    method GetDirectoriesThatRequiresPassword() returns (r: Result<seq<string>, JsError>)
      ensures globalFile.None? ==> r == Failure(FileNotFound(onboardbaseConfigFile))
      ensures globalFile.Some? && globalFile.value.scoped.None? ==> r == Failure(TypeError("Object.keys(scoped)"))
      ensures globalFile.Some? && globalFile.value.scoped.Some? ==>
        r.Success? &&
        (forall d :: d in r.value <==> d in PasswordScopes(globalFile.value.scoped.value)) &&
        (forall i, j :: 0 <= i < j < |r.value| ==> r.value[i] != r.value[j])
    {
      if globalFile.None? {
        return Failure(FileNotFound(onboardbaseConfigFile));
      }
      if globalFile.value.scoped.None? {
        return Failure(TypeError("Object.keys(scoped)"));
      }
      var scoped := globalFile.value.scoped.value;
      var directoriesThatNeedsPassword: seq<string> := [];
      var keys := scoped.Keys;
      while keys != {}
        invariant keys <= scoped.Keys
        invariant forall d :: d in directoriesThatNeedsPassword <==> d in PasswordScopes(scoped) && d !in keys
        invariant forall i, j :: 0 <= i < j < |directoriesThatNeedsPassword| ==>
          directoriesThatNeedsPassword[i] != directoriesThatNeedsPassword[j]
        decreases |keys|
      {
        var scopedDirectoryKey :| scopedDirectoryKey in keys;
        if Truthy(Field(scoped[scopedDirectoryKey], RequirePasswordKey)) {
          directoriesThatNeedsPassword := directoriesThatNeedsPassword + [scopedDirectoryKey];
        }
        keys := keys - {scopedDirectoryKey};
      }
      return Success(directoriesThatNeedsPassword);
    }

    /** `updateDirectorySessionConfig({scope, requirePasswordForCurrentSession})`: the file keeps only `scoped`. */
    method UpdateDirectorySessionConfig(scope: string, requirePasswordForCurrentSession: bool) returns (r: Result<(), JsError>)
      modifies this
      ensures store == old(store) && rsaKeys == old(rsaKeys) && authApiHost == old(authApiHost)
      ensures projectFile == old(projectFile) && rcFiles == old(rcFiles)
      ensures old(globalFile).None? ==> r == Failure(FileNotFound(onboardbaseConfigFile)) && globalFile == old(globalFile)
      ensures old(globalFile).Some? && old(globalFile).value.scoped.None? ==>
        r == Failure(TypeError("scoped[scope]")) && globalFile == old(globalFile)
      ensures old(globalFile).Some? && old(globalFile).value.scoped.Some? ==>
        r == Success(()) &&
        globalFile == Some(ConfigFile(Some(WithSessionFlag(old(globalFile).value.scoped.value, scope, requirePasswordForCurrentSession)), map[]))
    {
      if globalFile.None? {
        return Failure(FileNotFound(onboardbaseConfigFile));
      }
      if globalFile.value.scoped.None? {
        return Failure(TypeError("scoped[scope]"));
      }
      var scoped := globalFile.value.scoped.value;
      var current := if scope in scoped then scoped[scope] else map[];
      var updated := scoped[scope := current[SessionFlag := Bool(requirePasswordForCurrentSession)]];
      globalFile := Some(ConfigFile(Some(updated), map[]));
      return Success(());
    }

    /**
     * `updateGlobalConfig(...)`. A missing global file is first created
     * fresh. With `requirePassword` truthy on a Unix system, the marker block
     * is appended to the shell start-up file unless present; a missing
     * start-up file throws before the global file is written.
     */
    method UpdateGlobalConfig(c: SecretCrypto.Cipher, machineId: string, u: GlobalUpdate, isUnix: bool,
                              shell: Option<string>, home: Option<string>)
      returns (r: Result<(), JsError>)
      modifies this
      ensures store == old(store) && rsaKeys == old(rsaKeys) && authApiHost == old(authApiHost)
      ensures projectFile == old(projectFile)
      ensures var rc := ShellRc.GetShellRc(shell, home);
        u.requirePassword == Some(true) && isUnix && rc !in old(rcFiles) ==>
          r == Failure(FileNotFound(rc)) && rcFiles == old(rcFiles) &&
          globalFile == Some(if old(globalFile).Some? then old(globalFile).value else FreshConfig)
      ensures var rc := ShellRc.GetShellRc(shell, home);
        u.requirePassword == Some(true) && isUnix && rc in old(rcFiles) ==>
          rcFiles == old(rcFiles)[rc := AppendMarker(old(rcFiles)[rc])]
      ensures !(u.requirePassword == Some(true) && isUnix) ==> rcFiles == old(rcFiles)
      ensures r.Success? ==>
        globalFile == Some(UpdatedConfig(if old(globalFile).Some? then old(globalFile).value else FreshConfig,
                                         u, SecretCrypto.EncryptSecrets(c, PasswordText(u), None, machineId)))
      ensures r.Failure? <==> u.requirePassword == Some(true) && isUnix && ShellRc.GetShellRc(shell, home) !in old(rcFiles)
    {
      if globalFile.None? {
        globalFile := Some(FreshConfig);
      }
      var encrypted := SecretCrypto.EncryptSecrets(c, PasswordText(u), None, machineId);
      var finalData := UpdatedConfig(globalFile.value, u, encrypted);
      r := Success(());
      if u.requirePassword == Some(true) && isUnix {
        r := AddRcMarker(ShellRc.GetShellRc(shell, home));
      }
      if r.Success? {
        globalFile := Some(finalData);
      }
    }

    /** Appends the marker block to the shell start-up file at `shellRC` unless a line of it is already the marker. */
    method AddRcMarker(shellRC: string) returns (r: Result<(), JsError>)
      modifies this
      ensures store == old(store) && rsaKeys == old(rsaKeys) && authApiHost == old(authApiHost)
      ensures projectFile == old(projectFile) && globalFile == old(globalFile)
      ensures shellRC !in old(rcFiles) ==> r == Failure(FileNotFound(shellRC)) && rcFiles == old(rcFiles)
      ensures shellRC in old(rcFiles) ==> r == Success(()) && rcFiles == old(rcFiles)[shellRC := AppendMarker(old(rcFiles)[shellRC])]
    {
      if shellRC !in rcFiles {
        return Failure(FileNotFound(shellRC));
      }
      var existingData := rcFiles[shellRC];
      var existDataArray := Split(existingData, '\n');
      var onboardbaseCommandExistinRCFile := RcMarker in existDataArray;
      if !onboardbaseCommandExistinRCFile {
        rcFiles := rcFiles[shellRC := existingData + MarkerBlock];
      }
      return Success(());
    }

    /** `getHttpInstance(url)`: the base URL the client is created with. */
    function GetHttpInstance(url: Option<string>): (r: Result<Scalar, JsError>)
      reads this
      ensures r.Failure? <==> !(url.Some? && url.value != "") && GetConfigs().None?
      ensures r.Success? && !(url.Some? && url.value != "") && GetConfigs().value == map[] ==> r.value == Str(DefaultApiHost)
      ensures url.Some? && url.value != "" ==> r == Success(Str(url.value))
      ensures !(url.Some? && url.value != "") && GetConfigs().Some? && HasApiHost(GetConfigs().value, cwd) ==>
        r == Success(GetConfigs().value[cwd][ApiHostKey])
      ensures !(url.Some? && url.value != "") && GetConfigs().Some? && !HasApiHost(GetConfigs().value, cwd) && HasApiHost(GetConfigs().value, "/") ==>
        r == Success(GetConfigs().value["/"][ApiHostKey])
      ensures !(url.Some? && url.value != "") && GetConfigs().Some? && !HasApiHost(GetConfigs().value, cwd) && !HasApiHost(GetConfigs().value, "/") ==>
        r == Success(Str(DefaultApiHost))
    {
      BaseUrl(url, GetConfigs(), cwd)
    }
  }
}
