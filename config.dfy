/** Configuration resolution of the facade (`DBFacadeConfig`): built-in defaults, then an
    optional configuration file merged shallowly, then environment overrides with exact
    string rules, then an optional secrets file merged section by section; and the
    dotted-path lookup every other component reads its settings with.

    Files arrive already parsed (`FileContents`) and the environment is a map, so the model
    reads no file and no process environment. The class holds what the Python class keeps in
    class attributes. */
module Config {
  import opened Wrappers
  import opened Strings
  import opened Dicts
  import opened Values

  /** The built-in configuration (`_default_config`). Being a value, nothing done to a loaded
      configuration can alter it, which is what the deep copy in `initialize` secures. */
  function Defaults(): (cfg: Record)
    ensures Keys(cfg) == ["mode", "encryption", "registry", "database"]
  {
    [ ("mode", Str("DEV")),
      ("encryption", Obj([("enabled", Bool(false)), ("algorithm", Str("AES-GCM")),
                          ("key_derivation", Str("PBKDF2"))])),
      ("registry", Obj([("url", Str("http://localhost:8000")), ("cache_ttl", Int(3600))])),
      ("database", Obj([("url", Str("http://localhost:8529")), ("database", Str("dbfacade")),
                        ("username", Str("root")), ("password", Str(""))])) ]
  }

  /** What reading a named YAML file gives: no such file, a file that cannot be read or
      parsed, or the parsed document. */
  datatype FileContents = Missing | Unreadable | Parsed(data: Value)

  /** `d.update(other)`: each item of `other` in turn, as `d[k] = v`. */
  function Update(d: Record, other: Record): Record
    decreases |other|
  {
    if other == [] then d else Update(Put(d, other[0].0, other[0].1), other[1..])
  }

  /** After `d.update(other)`, a key of `other` has `other`'s value and every other key keeps
      its old one. */
  lemma {:induction false} UpdateGet(d: Record, other: Record, k: string)
    requires DistinctKeys(other)
    ensures Get(Update(d, other), k) == if HasKey(other, k) then Get(other, k) else Get(d, k)
    decreases |other|
  {
    if other != [] {
      var (k0, v0) := other[0];
      assert DistinctKeys(other[1..]);
      UpdateGet(Put(d, k0, v0), other[1..], k);
      if k == k0 {
        GetPutSame(d, k0, v0);
        assert !HasKey(other[1..], k) by {
          forall j | 0 <= j < |other[1..]| ensures other[1..][j].0 != k {
            assert other[1..][j] == other[j + 1];
          }
        }
      } else {
        GetPutOther(d, k0, v0, k);
      }
    }
  }

  /** Dotted-path lookup: walk the path through nested dictionaries; `None` as soon as a
      segment is missing or the value reached is not a dictionary. */
  function Resolve(v: Value, path: seq<string>): Option<Value>
    decreases |path|
  {
    if path == [] then Some(v)
    else if v.Obj? && HasKey(v.fields, path[0]) then Resolve(Get(v.fields, path[0]).value, path[1..])
    else None
  }

  /** Walking `p + q` is walking `p`, then `q` from where `p` ended. */
  lemma {:induction false} ResolveConcat(v: Value, p: seq<string>, q: seq<string>)
    ensures Resolve(v, p + q) == if Resolve(v, p).Some? then Resolve(Resolve(v, p).value, q) else None
    decreases |p|
  {
    if p == [] {
      assert p + q == q;
    } else {
      assert (p + q)[0] == p[0] && (p + q)[1..] == p[1..] + q;
      if v.Obj? && HasKey(v.fields, p[0]) {
        ResolveConcat(Get(v.fields, p[0]).value, p[1..], q);
      }
    }
  }

  /** The walk gives up at the first segment that is missing or that meets a non-dictionary:
      whatever follows that segment is never looked at. */
  lemma ResolveStops(v: Value, path: seq<string>, i: nat)
    requires i < |path| && Resolve(v, path[..i]).Some?
    requires var w := Resolve(v, path[..i]).value; !w.Obj? || !HasKey(w.fields, path[i])
    ensures Resolve(v, path) == None
  {
    ResolveConcat(v, path[..i], path[i..]);
    assert path[..i] + path[i..] == path;
  }

  /** A one-segment path is a plain top-level lookup. */
  lemma ResolveSingle(cfg: Record, k: string)
    ensures Resolve(Obj(cfg), [k]) == Get(cfg, k)
  {
  }

  /** `get(key, default)`: a key holding "." is split and walked; any other key is a top-level
      lookup. Both branches agree with one walk over `key.split(".")`. */
  method Lookup(cfg: Record, key: string, default: Value) returns (v: Value)
    ensures v == Resolve(Obj(cfg), Split(key, '.')).GetOr(default)
  {
    if '.' in key {
      var parts := Split(key, '.');
      var value := Obj(cfg);
      var i := 0;
      while i < |parts|
        invariant 0 <= i <= |parts|
        invariant Resolve(Obj(cfg), parts) == Resolve(value, parts[i..])
      {
        if value.Obj? && HasKey(value.fields, parts[i]) {
          assert parts[i..][1..] == parts[i + 1..];
          value := Get(value.fields, parts[i]).value;
        } else {
          return default;
        }
        i := i + 1;
      }
      return value;
    }
    SplitWithoutSeparator(key, '.');
    ResolveSingle(cfg, key);
    return Get(cfg, key).GetOr(default);
  }

  /** `get("mode") == "DEV"` */
  predicate DevMode(cfg: Record) {
    Get(cfg, "mode") == Some(Str("DEV"))
  }

  /** `get("encryption.enabled", False)`, which callers test for truth. */
  function EncryptionEnabled(cfg: Record): Value {
    Resolve(Obj(cfg), ["encryption", "enabled"]).GetOr(Bool(false))
  }

  /** The key `is_encryption_enabled` reads is the two-segment path. */
  lemma SplitFlagKey()
    ensures Split("encryption.enabled", '.') == ["encryption", "enabled"]
  {
    SplitPair("encryption", '.', "enabled");
    assert "encryption" + ['.'] + "enabled" == "encryption.enabled";
  }

  /** A freshly initialised configuration with no file and no overrides is in development mode
      with encryption disabled. */
  lemma DefaultsDevMode()
    ensures DevMode(Defaults())
    ensures EncryptionEnabled(Defaults()) == Bool(false)
  {
  }

  /** The configuration-file step of `initialize` (`_load_from_file`): a missing or unreadable
      file ends the process; a false document changes nothing; a dictionary is merged with
      `update`, each of its top-level keys replacing the whole section. */
  function FileLayer(cfg: Record, file: FileContents): Result<Record, Failure> {
    match file
    case Missing => Err(Exit(1))
    case Unreadable => Err(Exit(1))
    case Parsed(doc) =>
      if !Truthy(doc) then Ok(cfg)
      else if doc.Obj? then Ok(Update(cfg, doc.fields))
      else Err(Exit(1))
  }

  /** A section named in the configuration file replaces the default section as a whole:
      keys of the default section that the file leaves out are gone. */
  lemma FileSectionReplaces(cfg: Record, doc: Record, section: string)
    requires doc != [] && DistinctKeys(doc) && HasKey(doc, section)
    ensures FileLayer(cfg, Parsed(Obj(doc))).Ok?
    ensures Get(FileLayer(cfg, Parsed(Obj(doc))).value, section) == Get(doc, section)
  {
    UpdateGet(cfg, doc, section);
  }

  /** One write the environment step makes: `_config[key] = value` or
      `_config[section][key] = value`. */
  datatype Assignment =
    | Top(key: string, value: Value)
    | Nested(section: string, key: string, value: Value)

  /** Writing one assignment. A nested write into a section that is not a dictionary raises
      `TypeError` (item assignment on a string, a list, a number or `None`). */
  function Assign(cfg: Record, a: Assignment): Result<Record, Failure> {
    match a
    case Top(k, v) => Ok(Put(cfg, k, v))
    case Nested(s, k, v) =>
      var current := Get(cfg, s);
      if current.None? then Err(Raised(KeyError))
      else if current.value.Obj? then Ok(Put(cfg, s, Obj(Put(current.value.fields, k, v))))
      else Err(Raised(TypeError))
  }

  /** The configuration after a run of in-place writes, and the exception that stopped them,
      if any; writes made before the failing one stay made. */
  datatype Applied = Applied(config: Record, failure: Option<Failure>)

  /** One optional write after the earlier ones: skipped once something has failed. */
  function Then(a: Applied, step: Option<Assignment>): Applied {
    if a.failure.Some? || step.None? then a
    else match Assign(a.config, step.value)
      case Err(f) => Applied(a.config, Some(f))
      case Ok(c) => Applied(c, None)
  }

  /** The top-level key an assignment writes. */
  function Target(a: Assignment): string {
    if a.Top? then a.key else a.section
  }

  /** A write aimed at another top-level key leaves a top-level key as it was. */
  lemma ThenKeeps(a: Applied, step: Option<Assignment>, k: string)
    requires step.Some? ==> Target(step.value) != k
    ensures Get(Then(a, step).config, k) == Get(a.config, k)
  {
    if a.failure.None? && step.Some? && Assign(a.config, step.value).Ok? {
      var s := step.value;
      var v := if s.Top? then s.value else Obj(Put(Get(a.config, s.section).value.fields, s.key, s.value));
      assert Assign(a.config, s).value == Put(a.config, Target(s), v);
      GetPutOther(a.config, Target(s), v, k);
    }
  }

  /** A successful write of `section.key` leaves that key holding the written value. */
  lemma ThenWrites(a: Applied, section: string, key: string, v: Value)
    requires Then(a, Some(Nested(section, key, v))).failure.None?
    ensures Resolve(Obj(Then(a, Some(Nested(section, key, v))).config), [section, key]) == Some(v)
  {
    var r := Then(a, Some(Nested(section, key, v)));
    var f := Get(a.config, section).value.fields;
    GetPutSame(a.config, section, Obj(Put(f, key, v)));
    GetPutSame(f, key, v);
    assert Get(r.config, section) == Some(Obj(Put(f, key, v)));
    assert [section, key][1..] == [key];
    assert Resolve(Obj(Put(f, key, v)), [key]) == Some(v) by {
      assert [key][1..] == [];
    }
  }

  const TrueWords: set<string> := {"1", "true", "True", "yes", "Yes"}
  const FalseWords: set<string> := {"0", "false", "False", "no", "No"}

  /** INDALEKO_MODE overrides the mode only when it is exactly "DEV" or "PROD". */
  function ModeStep(env: map<string, string>): Option<Assignment> {
    if "INDALEKO_MODE" in env && env["INDALEKO_MODE"] in {"DEV", "PROD"}
    then Some(Top("mode", Str(env["INDALEKO_MODE"]))) else None
  }

  /** INDALEKO_ENCRYPTION_ENABLED sets the flag for the listed spellings only. */
  function FlagStep(env: map<string, string>): Option<Assignment> {
    if "INDALEKO_ENCRYPTION_ENABLED" !in env then None
    else if env["INDALEKO_ENCRYPTION_ENABLED"] in TrueWords then Some(Nested("encryption", "enabled", Bool(true)))
    else if env["INDALEKO_ENCRYPTION_ENABLED"] in FalseWords then Some(Nested("encryption", "enabled", Bool(false)))
    else None
  }

  /** A connection setting taken from the environment when the variable is set and non-empty. */
  function TextStep(env: map<string, string>, name: string, section: string, key: string): Option<Assignment> {
    if name in env && env[name] != "" then Some(Nested(section, key, Str(env[name]))) else None
  }

  /** The four connection settings after the flag, in the order `_load_from_env` writes them. */
  function ConnectionSteps(a: Applied, env: map<string, string>): Applied {
    var a1 := Then(a, TextStep(env, "INDALEKO_DB_URL", "database", "url"));
    var a2 := Then(a1, TextStep(env, "INDALEKO_DB_USERNAME", "database", "username"));
    var a3 := Then(a2, TextStep(env, "INDALEKO_DB_PASSWORD", "database", "password"));
    Then(a3, TextStep(env, "INDALEKO_REGISTRY_URL", "registry", "url"))
  }

  /** `_load_from_env`: mode, encryption flag, then the connection settings. */
  function EnvLayer(cfg: Record, env: map<string, string>): Applied {
    ConnectionSteps(Then(Then(Applied(cfg, None), ModeStep(env)), FlagStep(env)), env)
  }

  /** The connection settings touch neither the mode nor the encryption section. */
  lemma ConnectionStepsKeep(a: Applied, env: map<string, string>, k: string)
    requires k != "database" && k != "registry"
    ensures Get(ConnectionSteps(a, env).config, k) == Get(a.config, k)
    ensures ConnectionSteps(a, env).failure.None? ==> a.failure.None?
  {
    var a1 := Then(a, TextStep(env, "INDALEKO_DB_URL", "database", "url"));
    var a2 := Then(a1, TextStep(env, "INDALEKO_DB_USERNAME", "database", "username"));
    var a3 := Then(a2, TextStep(env, "INDALEKO_DB_PASSWORD", "database", "password"));
    ThenKeeps(a, TextStep(env, "INDALEKO_DB_URL", "database", "url"), k);
    ThenKeeps(a1, TextStep(env, "INDALEKO_DB_USERNAME", "database", "username"), k);
    ThenKeeps(a2, TextStep(env, "INDALEKO_DB_PASSWORD", "database", "password"), k);
    ThenKeeps(a3, TextStep(env, "INDALEKO_REGISTRY_URL", "registry", "url"), k);
  }

  /** `initialize`: defaults, then the configuration file when a path is given, then the
      environment. */
  function Layered(file: Option<FileContents>, env: map<string, string>): Applied {
    if file.None? then EnvLayer(Defaults(), env)
    else match FileLayer(Defaults(), file.value)
      case Err(f) => Applied(Defaults(), Some(f))
      case Ok(c) => EnvLayer(c, env)
  }

  /** The environment decides the mode, over the defaults and over the file, exactly when
      INDALEKO_MODE is "DEV" or "PROD"; any other value leaves the mode the file or the
      defaults gave. */
  lemma EnvModeWins(cfg: Record, env: map<string, string>)
    ensures Get(EnvLayer(cfg, env).config, "mode") ==
      if "INDALEKO_MODE" in env && env["INDALEKO_MODE"] in {"DEV", "PROD"}
      then Some(Str(env["INDALEKO_MODE"])) else Get(cfg, "mode")
  {
    var a1 := Then(Applied(cfg, None), ModeStep(env));
    var a2 := Then(a1, FlagStep(env));
    ConnectionStepsKeep(a2, env, "mode");
    ThenKeeps(a1, FlagStep(env), "mode");
    if ModeStep(env).Some? {
      GetPutSame(cfg, "mode", Str(env["INDALEKO_MODE"]));
    }
  }

  /** The environment sets `encryption.enabled` to True for "1", "true", "True", "yes", "Yes"
      and to False for "0", "false", "False", "no", "No", whatever the file said; any other
      value leaves the flag as it was. */
  lemma EnvFlagWins(cfg: Record, env: map<string, string>)
    ensures EnvLayer(cfg, env).failure.None? ==>
      Resolve(Obj(EnvLayer(cfg, env).config), ["encryption", "enabled"]) ==
        if "INDALEKO_ENCRYPTION_ENABLED" in env && env["INDALEKO_ENCRYPTION_ENABLED"] in TrueWords
        then Some(Bool(true))
        else if "INDALEKO_ENCRYPTION_ENABLED" in env && env["INDALEKO_ENCRYPTION_ENABLED"] in FalseWords
        then Some(Bool(false))
        else Resolve(Obj(cfg), ["encryption", "enabled"])
  {
    var a1 := Then(Applied(cfg, None), ModeStep(env));
    var a2 := Then(a1, FlagStep(env));
    ConnectionStepsKeep(a2, env, "encryption");
    ThenKeeps(Applied(cfg, None), ModeStep(env), "encryption");
    var r := EnvLayer(cfg, env);
    if r.failure.None? {
      assert Get(r.config, "encryption") == Get(a2.config, "encryption");
      if FlagStep(env).Some? {
        ThenWrites(a1, "encryption", "enabled", FlagStep(env).value.value);
      } else {
        assert Get(a2.config, "encryption") == Get(cfg, "encryption");
      }
    }
  }

  /** Layering: whatever the configuration file says, a valid INDALEKO_MODE decides the mode
      of an initialised configuration. */
  lemma LayeredModeWins(file: Option<FileContents>, env: map<string, string>)
    requires "INDALEKO_MODE" in env && env["INDALEKO_MODE"] in {"DEV", "PROD"}
    ensures Layered(file, env).failure.None? ==>
      Get(Layered(file, env).config, "mode") == Some(Str(env["INDALEKO_MODE"]))
  {
    if file.None? {
      EnvModeWins(Defaults(), env);
    } else if FileLayer(Defaults(), file.value).Ok? {
      EnvModeWins(FileLayer(Defaults(), file.value).value, env);
    }
  }

  /** One section of the secrets file (`load_from_secrets_file`): a dictionary is merged into
      the existing section key by key, creating the section when absent; any other value
      replaces the section. Merging into an existing section that is not a dictionary fails
      (`update` on a non-dictionary) and ends the process. */
  function MergeSection(cfg: Record, section: string, values: Value): Result<Record, Failure> {
    if values.Obj? then
      var current := Get(cfg, section);
      if current.None? then Ok(Put(cfg, section, Obj(Update([], values.fields))))
      else if current.value.Obj? then Ok(Put(cfg, section, Obj(Update(current.value.fields, values.fields))))
      else Err(Exit(1))
    else Ok(Put(cfg, section, values))
  }

  /** Secrets sections are merged key by key: a key the secrets name takes the secret's value,
      every other key of the section keeps the value it had. A section given as anything but a
      dictionary replaces the old section outright. */
  lemma MergeSectionKeyByKey(cfg: Record, section: string, values: Value, k: string)
    requires values.Obj? ==> DistinctKeys(values.fields)
    requires Get(cfg, section).Some? ==> Get(cfg, section).value.Obj? || !values.Obj?
    ensures MergeSection(cfg, section, values).Ok?
    ensures var c := MergeSection(cfg, section, values).value;
      (!values.Obj? ==> Get(c, section) == Some(values)) &&
      (values.Obj? ==>
        Resolve(Obj(c), [section, k]) ==
          (if HasKey(values.fields, k) then Get(values.fields, k)
           else if Get(cfg, section).Some? then Get(Get(cfg, section).value.fields, k)
           else None))
  {
    var c := MergeSection(cfg, section, values).value;
    if values.Obj? {
      var prior := if Get(cfg, section).Some? then Get(cfg, section).value.fields else [];
      var merged := Update(prior, values.fields);
      assert c == Put(cfg, section, Obj(merged));
      GetPutSame(cfg, section, Obj(merged));
      UpdateGet(prior, values.fields, k);
      assert [section, k][1..] == [k];
      assert Resolve(Obj(merged), [k]) == Get(merged, k) by {
        ResolveSingle(merged, k);
      }
    } else {
      GetPutSame(cfg, section, values);
    }
  }

  /** All sections of the secrets document, in order, stopping at the first failure. */
  function MergeAll(cfg: Record, sections: Record): Applied
    decreases |sections|
  {
    if sections == [] then Applied(cfg, None)
    else match MergeSection(cfg, sections[0].0, sections[0].1)
      case Err(f) => Applied(cfg, Some(f))
      case Ok(c) => MergeAll(c, sections[1..])
  }

  /** The secrets-file step: a missing file is reported and changes nothing; an unreadable
      file, or a document that is true but not a dictionary, ends the process. */
  function SecretsLayer(cfg: Record, file: FileContents): Applied {
    match file
    case Missing => Applied(cfg, None)
    case Unreadable => Applied(cfg, Some(Exit(1)))
    case Parsed(doc) =>
      if !Truthy(doc) then Applied(cfg, None)
      else if doc.Obj? then MergeAll(cfg, doc.fields)
      else Applied(cfg, Some(Exit(1)))
  }

  /** The configuration store. `initialized` is false until an `initialize` completes. */
  class DBFacadeConfig {
    var config: Record
    var initialized: bool

    constructor ()
      ensures config == [] && !initialized
    {
      config := [];
      initialized := false;
    }

    /** `initialize(config_path)`: `file` is `None` when no path is given. The flag is set only
        when every step completed. */
    method Initialize(file: Option<FileContents>, env: map<string, string>) returns (failure: Option<Failure>)
      modifies this
      ensures Applied(config, failure) == Layered(file, env)
      ensures initialized == (old(initialized) || failure.None?)
    {
      config := Defaults();
      if file.Some? {
        failure := LoadFromFile(file.value);
        if failure.Some? {
          return;
        }
      }
      failure := LoadFromEnv(env);
      if failure.None? {
        initialized := true;
      }
    }

    /** `_load_from_file`, on the already-parsed document. */
    method LoadFromFile(file: FileContents) returns (failure: Option<Failure>)
      modifies this`config
      ensures FileLayer(old(config), file).Ok? ==> failure.None? && config == FileLayer(old(config), file).value
      ensures FileLayer(old(config), file).Err? ==> failure == Some(FileLayer(old(config), file).error) && config == old(config)
    {
      failure := None;
      match file
      case Missing =>
        failure := Some(Exit(1));
      case Unreadable =>
        failure := Some(Exit(1));
      case Parsed(doc) =>
        if Truthy(doc) {
          if doc.Obj? {
            config := Update(config, doc.fields);
          } else {
            failure := Some(Exit(1));
          }
        }
    }

    /** `_config[section][key] = value` */
    method SetNested(section: string, key: string, value: Value) returns (failure: Option<Failure>)
      modifies this`config
      ensures Applied(config, failure) == Then(Applied(old(config), None), Some(Nested(section, key, value)))
    {
      failure := None;
      var current := Dicts.Get(config, section);
      if current.None? {
        failure := Some(Raised(KeyError));
      } else if current.value.Obj? {
        config := Put(config, section, Obj(Put(current.value.fields, key, value)));
      } else {
        failure := Some(Raised(TypeError));
      }
    }

    /** `_load_from_env`: the writes are made one after the other, and a failing one leaves
        the earlier ones in place. */
    method LoadFromEnv(env: map<string, string>) returns (failure: Option<Failure>)
      modifies this`config
      ensures Applied(config, failure) == EnvLayer(old(config), env)
    {
      failure := None;
      if "INDALEKO_MODE" in env && env["INDALEKO_MODE"] in {"DEV", "PROD"} {
        config := Put(config, "mode", Str(env["INDALEKO_MODE"]));
      }
      ghost var a1 := Applied(config, None);
      assert a1 == Then(Applied(old(config), None), ModeStep(env));
      if "INDALEKO_ENCRYPTION_ENABLED" in env {
        var flag := env["INDALEKO_ENCRYPTION_ENABLED"];
        if flag in TrueWords {
          failure := SetNested("encryption", "enabled", Bool(true));
        } else if flag in FalseWords {
          failure := SetNested("encryption", "enabled", Bool(false));
        }
      }
      assert Applied(config, failure) == Then(a1, FlagStep(env));
      if failure.Some? {
        return;
      }
      ghost var a2 := Applied(config, failure);
      failure := SetText(env, "INDALEKO_DB_URL", "database", "url");
      if failure.Some? {
        return;
      }
      failure := SetText(env, "INDALEKO_DB_USERNAME", "database", "username");
      if failure.Some? {
        return;
      }
      failure := SetText(env, "INDALEKO_DB_PASSWORD", "database", "password");
      if failure.Some? {
        return;
      }
      failure := SetText(env, "INDALEKO_REGISTRY_URL", "registry", "url");
    }

    /** One `if value: _config[section][key] = value` step of `_load_from_env`. */
    method SetText(env: map<string, string>, name: string, section: string, key: string)
      returns (failure: Option<Failure>)
      modifies this`config
      ensures Applied(config, failure) == Then(Applied(old(config), None), TextStep(env, name, section, key))
    {
      failure := None;
      if name in env && env[name] != "" {
        failure := SetNested(section, key, Str(env[name]));
      }
    }

    /** `_ensure_initialized` */
    method EnsureInitialized(env: map<string, string>) returns (failure: Option<Failure>)
      modifies this
      ensures old(initialized) ==> failure.None? && config == old(config) && initialized
      ensures !old(initialized) ==> Applied(config, failure) == Layered(None, env)
      ensures initialized == (old(initialized) || failure.None?)
    {
      failure := None;
      if !initialized {
        failure := Initialize(None, env);
      }
    }

    /** `get(key, default)` */
    method Get(key: string, default: Value, env: map<string, string>) returns (r: Result<Value, Failure>)
      modifies this
      ensures old(initialized) ==> config == old(config)
      ensures !old(initialized) ==> Applied(config, if r.Err? then Some(r.error) else None) == Layered(None, env)
      ensures r.Ok? ==> r.value == Resolve(Obj(config), Split(key, '.')).GetOr(default)
    {
      var failure := EnsureInitialized(env);
      if failure.Some? {
        return Err(failure.value);
      }
      var v := Lookup(config, key, default);
      return Ok(v);
    }

    /** `is_dev_mode` */
    method IsDevMode(env: map<string, string>) returns (r: Result<bool, Failure>)
      modifies this
      ensures old(initialized) ==> config == old(config)
      ensures r.Ok? ==> r.value == DevMode(config)
    {
      var mode := Get("mode", Null, env);
      if mode.Err? {
        return Err(mode.error);
      }
      SplitWithoutSeparator("mode", '.');
      ResolveSingle(config, "mode");
      return Ok(mode.value == Str("DEV"));
    }

    /** `is_encryption_enabled`: the stored value, which callers test for truth. */
    method IsEncryptionEnabled(env: map<string, string>) returns (r: Result<Value, Failure>)
      modifies this
      ensures old(initialized) ==> config == old(config)
      ensures r.Ok? ==> r.value == EncryptionEnabled(config)
    {
      r := Get("encryption.enabled", Bool(false), env);
      SplitFlagKey();
    }

    /** `load_from_secrets_file`, on the already-parsed document; it does not initialise. */
    method LoadFromSecretsFile(file: FileContents) returns (failure: Option<Failure>)
      modifies this`config
      ensures Applied(config, failure) == SecretsLayer(old(config), file)
    {
      failure := None;
      match file
      case Missing =>
      case Unreadable =>
        failure := Some(Exit(1));
      case Parsed(doc) =>
        if Truthy(doc) {
          if doc.Obj? {
            var sections := doc.fields;
            var i := 0;
            while i < |sections|
              invariant 0 <= i <= |sections|
              invariant MergeAll(old(config), sections) == MergeAll(config, sections[i..])
            {
              var (section, values) := sections[i];
              assert sections[i..][0] == sections[i] && sections[i..][1..] == sections[i + 1..];
              if values.Obj? {
                ghost var before := config;
                if !HasKey(config, section) {
                  config := Put(config, section, Obj([]));
                  GetPutSame(before, section, Obj([]));
                  PutPut(before, section, Obj([]), Obj(Update([], values.fields)));
                }
                var current := Dicts.Get(config, section);
                if !current.value.Obj? {
                  return Some(Exit(1));
                }
                config := Put(config, section, Obj(Update(current.value.fields, values.fields)));
              } else {
                config := Put(config, section, values);
              }
              i := i + 1;
            }
          } else {
            failure := Some(Exit(1));
          }
        }
    }
  }
}
