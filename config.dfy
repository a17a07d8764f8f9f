/** The profile store of `ccma` (src/lib/config.ts): named connection
    profiles for the Claude command-line assistant, the active profile, the
    language preference, the token mask and the environment overlay written
    into the project's `.claude/settings.local.json`. */
module Config {
  import opened Wrappers

  /** One connection profile (`ClaudeConfig`). */
  datatype Profile = Profile(name: string, url: string, token: string, model: Option<string>)

  datatype Language = Zh | En

  /** The record stored in `~/.ccma/config.json` (`ConfigData`). */
  datatype ConfigData = ConfigData(configs: map<string, Profile>, current: Option<string>, language: Option<Language>)

  /** JavaScript truthiness of an optional string: `undefined` and `""` are false. */
  predicate Truthy(s: Option<string>) {
    s.Some? && s.value != ""
  }

  /** The referential invariant every mutator keeps: `current`, when set,
      names a stored profile. A hand-edited file may break it, which is why
      `GetCurrentConfig` checks again. */
  predicate Consistent(d: ConfigData) {
    d.current.Some? ==> d.current.value in d.configs
  }

  /** `readConfig`: a missing or unparsable file (None) reads as the default
      record, and a record without a language gets Chinese. */
  function Load(file: Option<ConfigData>): (d: ConfigData)
    ensures d.language.Some?
    ensures file.None? ==> d.configs == map[] && d.current.None? && d.language == Some(Zh)
    ensures file.Some? ==> d.configs == file.value.configs && d.current == file.value.current
    ensures file.Some? && file.value.language.Some? ==> d.language == file.value.language
    ensures file.Some? && file.value.language.None? ==> d.language == Some(Zh)
    ensures file.Some? && Consistent(file.value) ==> Consistent(d)
  {
    match file
    case None => ConfigData(map[], None, Some(Zh))
    case Some(data) => if data.language.None? then data.(language := Some(Zh)) else data
  }

  /** `getLanguage`: English only when the file says so; Chinese otherwise. */
  function LanguageOf(file: Option<ConfigData>): (l: Language)
    ensures l == En <==> file.Some? && file.value.language == Some(En)
  {
    Load(file).language.value
  }

  /** The profile `addConfig` builds: the model is kept only when truthy. */
  function MakeProfile(name: string, url: string, token: string, model: Option<string>): (p: Profile)
    ensures p.name == name && p.url == url && p.token == token
    ensures p.model.Some? <==> Truthy(model)
    ensures Truthy(model) ==> p.model == model
  {
    Profile(name, url, token, if Truthy(model) then model else None)
  }

  /** The record after `addConfig(name, url, token, model)`: an upsert that
      replaces any earlier profile of that name wholesale. */
  function Added(d: ConfigData, name: string, url: string, token: string, model: Option<string>): (r: ConfigData)
    ensures r.configs.Keys == d.configs.Keys + {name}
    ensures r.configs[name] == MakeProfile(name, url, token, model)
    ensures forall n :: n in d.configs && n != name ==> r.configs[n] == d.configs[n]
    ensures r.current == d.current && r.language == d.language
    ensures Consistent(d) ==> Consistent(r)
  {
    d.(configs := d.configs[name := MakeProfile(name, url, token, model)])
  }

  /** The record after `deleteConfig(name)` of a stored name: exactly that
      key goes, and `current` is cleared exactly when it named it. */
  function Deleted(d: ConfigData, name: string): (r: ConfigData)
    requires name in d.configs
    ensures r.configs.Keys == d.configs.Keys - {name}
    ensures forall n :: n in r.configs ==> r.configs[n] == d.configs[n]
    ensures r.current.None? <==> (d.current.None? || d.current == Some(name))
    ensures d.current != Some(name) ==> r.current == d.current
    ensures r.language == d.language
    ensures Consistent(d) ==> Consistent(r)
  {
    var rest := d.configs - {name};
    if d.current == Some(name) then d.(configs := rest, current := None) else d.(configs := rest)
  }

  /** `getCurrentConfig`: the active profile, or None when `current` is unset,
      empty (falsy) or names no stored profile. */
  function CurrentOf(d: ConfigData): (p: Option<Profile>)
    ensures p.Some? <==> d.current.Some? && d.current.value != "" && d.current.value in d.configs
    ensures p.Some? ==> p.value == d.configs[d.current.value]
  {
    if d.current.None? || d.current.value == "" || d.current.value !in d.configs then None
    else Some(d.configs[d.current.value])
  }

  /** The record after `useConfig(name)` of a stored name; a following
      `getCurrentConfig` returns that profile (unless the name is empty). */
  function Activated(d: ConfigData, name: string): (r: ConfigData)
    requires name in d.configs
    ensures r.configs == d.configs && r.language == d.language
    ensures r.current == Some(name) && Consistent(r)
    ensures name != "" ==> CurrentOf(r) == Some(d.configs[name])
    ensures name == "" ==> CurrentOf(r).None?
  {
    d.(current := Some(name))
  }

  /** `formatToken`: tokens longer than 20 characters are shown as their first
      ten characters, "..." and their last ten. */
  function FormatToken(token: string): (r: string)
    ensures |token| <= 20 ==> r == token
    ensures |token| > 20 ==> |r| == 23 && r[..10] == token[..10] && r[10..13] == "..."
                             && r[13..] == token[|token| - 10..]
  {
    if |token| <= 20 then token
    else token[..10] + "..." + token[|token| - 10..]
  }

  /** Masking twice shows the same as masking once. */
  lemma FormatTokenIdempotent(token: string)
    ensures FormatToken(FormatToken(token)) == FormatToken(token)
  {
  }

  // ---------------------------------------------------------------------
  // The environment overlay (.claude/settings.local.json)

  /** A JSON value, for the parts of the overlay the merge passes through. */
  datatype Json = JNull | JBool(b: bool) | JNum(n: int) | JStr(s: string) | JArr(items: seq<Json>) | JObj(fields: map<string, Json>)

  /** A parsed overlay: its top-level object. */
  type Settings = map<string, Json>

  const BaseUrlVar := "ANTHROPIC_BASE_URL"
  const AuthTokenVar := "ANTHROPIC_AUTH_TOKEN"
  const ModelVar := "ANTHROPIC_MODEL"

  /** The fresh overlay's `permissions`: empty `allow` and `deny` lists. */
  const EmptyPermissions := JObj(map["allow" := JArr([]), "deny" := JArr([])])

  /** What `...existingSettings.env` spreads: the fields of an object `env`. */
  function EnvOf(s: Settings): (e: map<string, Json>)
    ensures "env" in s && s["env"].JObj? ==> e == s["env"].fields
    ensures !("env" in s && s["env"].JObj?) ==> e == map[]
  {
    if "env" in s && s["env"].JObj? then s["env"].fields else map[]
  }

  /** The `env` object after activating `p` over `env`: the URL and the raw
      token are upserted, the model is set when truthy and removed otherwise,
      and every other variable is kept. */
  function ManagedEnv(env: map<string, Json>, p: Profile): (e: map<string, Json>)
    ensures BaseUrlVar in e && e[BaseUrlVar] == JStr(p.url)
    ensures AuthTokenVar in e && e[AuthTokenVar] == JStr(p.token)
    ensures ModelVar in e <==> Truthy(p.model)
    ensures Truthy(p.model) ==> e[ModelVar] == JStr(p.model.value)
    ensures forall k :: k != BaseUrlVar && k != AuthTokenVar && k != ModelVar ==>
              (k in e <==> k in env) && (k in env ==> e[k] == env[k])
  {
    var withKeys := env[BaseUrlVar := JStr(p.url)][AuthTokenVar := JStr(p.token)];
    if Truthy(p.model) then withKeys[ModelVar := JStr(p.model.value)] else withKeys - {ModelVar}
  }

  /** The overlay `setEnvironmentVariables(p)` writes, given the overlay it
      read (None when missing or unparsable). */
  function MergeOverlay(existing: Option<Settings>, p: Profile): (s: Settings)
    ensures "env" in s
    ensures existing.Some? ==> s["env"] == JObj(ManagedEnv(EnvOf(existing.value), p))
    ensures existing.Some? ==> forall k :: k != "env" ==> (k in s <==> k in existing.value) && (k in s ==> s[k] == existing.value[k])
    ensures existing.None? ==> s.Keys == {"env", "permissions"} && s["permissions"] == EmptyPermissions
    ensures existing.None? ==> s["env"] == JObj(ManagedEnv(map[], p))
  {
    match existing
    case Some(prev) => prev["env" := JObj(ManagedEnv(EnvOf(prev), p))]
    case None => map["env" := JObj(ManagedEnv(map[], p)), "permissions" := EmptyPermissions]
  }

  /** Re-activating gives the same overlay: the merge overwrites only what it manages. */
  lemma MergeOverlayIdempotent(existing: Option<Settings>, p: Profile)
    ensures MergeOverlay(Some(MergeOverlay(existing, p)), p) == MergeOverlay(existing, p)
  {
    var once := MergeOverlay(existing, p);
    var twice := MergeOverlay(Some(once), p);
    var e1 := ManagedEnv(EnvOf(if existing.Some? then existing.value else map[]), p);
    assert EnvOf(once) == e1;
    assert ManagedEnv(e1, p) == e1;
    assert twice.Keys == once.Keys;
  }

  /** Activating a profile without a model over
      `{env: {FOO: "1"}, permissions: {allow: ["X"]}}` keeps FOO and the
      permissions, adds the URL and the token, and adds no model. */
  lemma MergeOverlayExample(u: string, t: string)
    ensures var before := map["env" := JObj(map["FOO" := JStr("1")]),
                               "permissions" := JObj(map["allow" := JArr([JStr("X")])])];
            MergeOverlay(Some(before), Profile("p", u, t, None))
              == map["env" := JObj(map["FOO" := JStr("1"), BaseUrlVar := JStr(u), AuthTokenVar := JStr(t)]),
                     "permissions" := JObj(map["allow" := JArr([JStr("X")])])]
  {
    var env := map["FOO" := JStr("1"), BaseUrlVar := JStr(u), AuthTokenVar := JStr(t)];
    assert ManagedEnv(map["FOO" := JStr("1")], Profile("p", u, t, None)) == env;
  }

  // ---------------------------------------------------------------------
  // Sequences of add and delete commands

  datatype Op = Add(name: string, url: string, token: string, model: Option<string>) | Delete(name: string)

  /** One command's effect on the record; deleting an absent name changes nothing. */
  function Step(d: ConfigData, op: Op): ConfigData {
    match op
    case Add(n, u, t, m) => Added(d, n, u, t, m)
    case Delete(n) => if n in d.configs then Deleted(d, n) else d
  }

  function ApplyOps(d: ConfigData, ops: seq<Op>): ConfigData
    decreases |ops|
  {
    if ops == [] then d else ApplyOps(Step(d, ops[0]), ops[1..])
  }

  /** The last command in `ops` that names `n`, if any. */
  function LastOp(ops: seq<Op>, n: string): (o: Option<Op>)
    ensures o.Some? ==> o.value in ops && o.value.name == n
    decreases |ops|
  {
    if ops == [] then None
    else match LastOp(ops[1..], n)
      case Some(o) => Some(o)
      case None => if ops[0].name == n then Some(ops[0]) else None
  }

  /** After a run of commands, a name is stored exactly when its last command
      was an add (or, never named, it was stored before), and then it holds
      the profile that add built. */
  lemma {:induction false} ApplyOpsProfiles(d: ConfigData, ops: seq<Op>, n: string)
    ensures var r := ApplyOps(d, ops);
            match LastOp(ops, n)
            case Some(o) => (n in r.configs <==> o.Add?) && (o.Add? ==> r.configs[n] == MakeProfile(n, o.url, o.token, o.model))
            case None => (n in r.configs <==> n in d.configs) && (n in d.configs ==> r.configs[n] == d.configs[n])
    decreases |ops|
  {
    if ops != [] {
      ApplyOpsProfiles(Step(d, ops[0]), ops[1..], n);
    }
  }

  /** Along a run of commands from a consistent record, `current` stays
      consistent; it is cleared exactly when the active profile is deleted
      somewhere in the run, and is otherwise unchanged. */
  lemma {:induction false} ApplyOpsCurrent(d: ConfigData, ops: seq<Op>)
    requires Consistent(d)
    ensures Consistent(ApplyOps(d, ops))
    ensures ApplyOps(d, ops).current == if d.current.Some? && Delete(d.current.value) in ops then None else d.current
    ensures ApplyOps(d, ops).language == d.language
    decreases |ops|
  {
    if ops != [] {
      var next := Step(d, ops[0]);
      ApplyOpsCurrent(next, ops[1..]);
      assert ops == [ops[0]] + ops[1..];
    }
  }

  /** Activating a name after a run of commands whose last mention of it was
      an add makes `getCurrentConfig` return exactly that added profile. */
  lemma ActivateAfterAdd(d: ConfigData, ops: seq<Op>, n: string, url: string, token: string, model: Option<string>)
    requires n != "" && LastOp(ops, n) == Some(Add(n, url, token, model))
    ensures n in ApplyOps(d, ops).configs
    ensures CurrentOf(Activated(ApplyOps(d, ops), n)) == Some(MakeProfile(n, url, token, model))
  {
    ApplyOpsProfiles(d, ops, n);
  }

  // ---------------------------------------------------------------------
  // The manager: both files as in-memory state

  class ConfigManager {
    /** `~/.ccma/config.json`; None when missing or unparsable. */
    var file: Option<ConfigData>
    /** `./.claude/settings.local.json`; None when missing or unparsable. */
    var overlay: Option<Settings>

    constructor(file: Option<ConfigData>, overlay: Option<Settings>)
      ensures this.file == file && this.overlay == overlay
    {
      this.file := file;
      this.overlay := overlay;
    }

    method AddConfig(name: string, url: string, token: string, model: Option<string>)
      modifies this`file
      ensures file == Some(Added(Load(old(file)), name, url, token, model))
      ensures LanguageOf(file) == LanguageOf(old(file))
    {
      var data := Load(file);
      var config := Profile(name, url, token, None);
      if Truthy(model) {
        config := config.(model := model);
      }
      data := data.(configs := data.configs[name := config]);
      file := Some(data);
    }

    method DeleteConfig(name: string) returns (ok: bool)
      modifies this`file
      ensures ok <==> name in Load(old(file)).configs
      ensures ok ==> file == Some(Deleted(Load(old(file)), name))
      ensures !ok ==> file == old(file)
    {
      var data := Load(file);
      if name !in data.configs {
        return false;
      }
      data := data.(configs := data.configs - {name});
      if data.current == Some(name) {
        data := data.(current := None);
      }
      file := Some(data);
      return true;
    }

    method UseConfig(name: string) returns (ok: bool)
      modifies this
      ensures ok <==> name in Load(old(file)).configs
      ensures ok ==> file == Some(Activated(Load(old(file)), name))
      ensures ok ==> overlay == Some(MergeOverlay(old(overlay), Load(old(file)).configs[name]))
      ensures ok && name != "" ==> CurrentOf(Load(file)) == Some(Load(old(file)).configs[name])
      ensures !ok ==> file == old(file) && overlay == old(overlay)
    {
      var data := Load(file);
      if name !in data.configs {
        return false;
      }
      data := data.(current := Some(name));
      file := Some(data);
      SetEnvironmentVariables(data.configs[name]);
      return true;
    }

    method GetCurrentConfig() returns (p: Option<Profile>)
      ensures p == CurrentOf(Load(file))
      ensures Consistent(Load(file)) && Load(file).current != Some("") ==> (p.Some? <==> Load(file).current.Some?)
    {
      var data := Load(file);
      if data.current.None? || data.current.value == "" || data.current.value !in data.configs {
        return None;
      }
      return Some(data.configs[data.current.value]);
    }

    /** `listConfigs`; the order of `Object.values` is not modelled. */
    method ListConfigs() returns (configs: set<Profile>, current: Option<string>)
      ensures forall p :: p in configs <==> exists n :: n in Load(file).configs && Load(file).configs[n] == p
      ensures current == Load(file).current
    {
      var data := Load(file);
      configs := data.configs.Values;
      current := data.current;
    }

    /** `getConfigNames`; the order of `Object.keys` is not modelled. */
    method GetConfigNames() returns (names: set<string>)
      ensures forall n :: n in names <==> n in Load(file).configs
    {
      var data := Load(file);
      names := data.configs.Keys;
    }

    method ClearConfigs()
      modifies this`file
      ensures file == Some(ConfigData(map[], None, Some(LanguageOf(old(file)))))
      ensures LanguageOf(file) == LanguageOf(old(file))
    {
      var data := Load(file);
      file := Some(ConfigData(map[], None, data.language));
    }

    method SetLanguage(language: Language)
      modifies this`file
      ensures file == Some(Load(old(file)).(language := Some(language)))
      ensures LanguageOf(file) == language
    {
      var data := Load(file);
      data := data.(language := Some(language));
      file := Some(data);
    }

    method GetLanguage() returns (l: Language)
      ensures l == En <==> file.Some? && file.value.language == Some(En)
    {
      var data := Load(file);
      l := data.language.value;
    }

    /** `setEnvironmentVariables`: read the overlay, merge the three managed
        variables into its `env`, and write it back. */
    method SetEnvironmentVariables(config: Profile)
      modifies this`overlay
      ensures overlay == Some(MergeOverlay(old(overlay), config))
    {
      var settings: Settings := map["env" := JObj(map[]), "permissions" := EmptyPermissions];
      if overlay.Some? {
        var existing := overlay.value;
        var newEnv := EnvOf(existing)[BaseUrlVar := JStr(config.url)][AuthTokenVar := JStr(config.token)];
        if Truthy(config.model) {
          newEnv := newEnv[ModelVar := JStr(config.model.value)];
        } else {
          newEnv := newEnv - {ModelVar};
        }
        settings := existing["env" := JObj(newEnv)];
        assert newEnv == ManagedEnv(EnvOf(existing), config);
      } else {
        var env := map[BaseUrlVar := JStr(config.url), AuthTokenVar := JStr(config.token)];
        if Truthy(config.model) {
          env := env[ModelVar := JStr(config.model.value)];
        }
        settings := settings["env" := JObj(env)];
        assert env == ManagedEnv(map[], config);
        assert settings == MergeOverlay(overlay, config);
      }
      overlay := Some(settings);
    }
  }
}
