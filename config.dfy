/** The layering of the application configuration: the defaults of
    `AppConfig`, then the keys of the YAML file, then the `YTD_*` environment
    variables, and on top of those the options given on the command line.
    The YAML file, the environment and `float()` are parameters: the file as
    the dictionary `_load_yaml` returns for a path, the environment as a map
    from variable names to their text. */
module Config {
  import opened Wrappers
  import opened PyText
  import opened Values
  import opened Types
  import Paths

  /** Whether the environment variable for the pause option is read as raw
      text, as the program does, or through `_parse_bool` like the audio
      option. */
  datatype Reading = AsWritten | Corrected

  /** The environment variable `_ENV_MAP` gives a field, `None` for the one
      field it leaves out. */
  function EnvName(k: ConfigKey): (n: Option<string>)
    ensures n.None? <==> k == HistoryDb
  {
    match k
    case Output => Some("YTD_OUTPUT")
    case QualityKey => Some("YTD_QUALITY")
    case VideoFormatKey => Some("YTD_VIDEO_FORMAT")
    case AudioOnly => Some("YTD_AUDIO_ONLY")
    case AudioFormatKey => Some("YTD_AUDIO_FORMAT")
    case NameTemplate => Some("YTD_NAME_TEMPLATE")
    case Subtitles => Some("YTD_SUBTITLES")
    case Proxy => Some("YTD_PROXY")
    case Retry => Some("YTD_RETRY")
    case RetryDelay => Some("YTD_RETRY_DELAY")
    case SaveMetadata => Some("YTD_SAVE_METADATA")
    case HistoryDb => None
    case PauseBetweenVideos => Some("YTD_PAUSE_BETWEEN_VIDEOS")
    case PauseKey => Some("YTD_PAUSE_KEY")
    case ResumeKey => Some("YTD_RESUME_KEY")
  }

  /** Different fields are read from different variables. */
  lemma EnvNamesDistinct(j: ConfigKey, k: ConfigKey)
    requires EnvName(j).Some? && EnvName(j) == EnvName(k)
    ensures j == k
  {
  }

  // ---------------------------------------------------------------------
  // _parse_bool
  // ---------------------------------------------------------------------

  /** The words `_parse_bool` accepts, once stripped and lower-cased. */
  predicate IsTrueWord(w: string) {
    w == "1" || w == "true" || w == "yes" || w == "y" || w == "on"
  }

  /** `_parse_bool(val)` */
  function ParseBool(val: string): (b: bool)
    ensures b <==> Lower(Strip(val)) in {"1", "true", "yes", "y", "on"}
    ensures b ==> 1 <= |Strip(val)| <= 4
  {
    IsTrueWord(Lower(Strip(val)))
  }

  /** `str.strip()` ignores whitespace around the text. */
  lemma {:induction false} LStripOfPadded(pre: string, s: string)
    requires forall i :: 0 <= i < |pre| ==> IsSpace(pre[i])
    ensures LStrip(pre + s) == LStrip(s)
    decreases |pre|
  {
    if pre != [] {
      assert IsSpace(pre[0]) && (pre + s)[0] == pre[0] && (pre + s)[1..] == pre[1..] + s;
      assert LStrip(pre + s) == LStrip(pre[1..] + s);
      LStripOfPadded(pre[1..], s);
    } else {
      assert pre + s == s;
    }
  }

  lemma {:induction false} RStripOfPadded(s: string, post: string)
    requires forall i :: 0 <= i < |post| ==> IsSpace(post[i])
    ensures RStrip(s + post) == RStrip(s)
    decreases |post|
  {
    if post != [] {
      var last := |post| - 1;
      assert (s + post)[|s + post| - 1] == post[last];
      assert (s + post)[..|s + post| - 1] == s + post[..last];
      RStripOfPadded(s, post[..last]);
    } else {
      assert s + post == s;
    }
  }

  /** Left stripping a text that is not all whitespace keeps what follows it. */
  lemma {:induction false} LStripOfAppend(s: string, t: string)
    requires exists i :: 0 <= i < |s| && !IsSpace(s[i])
    ensures LStrip(s + t) == LStrip(s) + t
    decreases |s|
  {
    if IsSpace(s[0]) {
      assert (s + t)[1..] == s[1..] + t;
      var i :| 0 <= i < |s| && !IsSpace(s[i]);
      assert i > 0 && !IsSpace(s[1..][i - 1]);
      LStripOfAppend(s[1..], t);
    }
  }

  lemma StripOfPadded(pre: string, s: string, post: string)
    requires forall i :: 0 <= i < |pre| ==> IsSpace(pre[i])
    requires forall i :: 0 <= i < |post| ==> IsSpace(post[i])
    ensures Strip(pre + s + post) == Strip(s)
  {
    assert pre + s + post == pre + (s + post);
    LStripOfPadded(pre, s + post);
    if forall i :: 0 <= i < |s| ==> IsSpace(s[i]) {
      forall i | 0 <= i < |s + post|
        ensures IsSpace((s + post)[i])
      {
        if i >= |s| {
          assert (s + post)[i] == post[i - |s|];
        }
      }
      assert Strip(s + post) == "";
    } else {
      LStripOfAppend(s, post);
      RStripOfPadded(LStrip(s), post);
    }
  }

  /** Whitespace around the value does not change what `_parse_bool` says. */
  lemma ParseBoolIgnoresPadding(pre: string, s: string, post: string)
    requires forall i :: 0 <= i < |pre| ==> IsSpace(pre[i])
    requires forall i :: 0 <= i < |post| ==> IsSpace(post[i])
    ensures ParseBool(pre + s + post) == ParseBool(s)
  {
    StripOfPadded(pre, s, post);
  }

  /** The lower-cased letters are fixed by lower-casing. */
  lemma LowerTwice(s: string)
    ensures Lower(Lower(s)) == Lower(s)
  {
  }

  /** Lower-casing keeps whitespace and non-whitespace apart, so it commutes
      with stripping. */
  lemma {:induction false} LStripOfLower(s: string)
    ensures LStrip(Lower(s)) == Lower(LStrip(s))
    decreases |s|
  {
    if |s| > 0 {
      assert IsSpace(Lower(s)[0]) == IsSpace(s[0]);
      assert Lower(s)[1..] == Lower(s[1..]);
      LStripOfLower(s[1..]);
    }
  }

  lemma {:induction false} RStripOfLower(s: string)
    ensures RStrip(Lower(s)) == Lower(RStrip(s))
    decreases |s|
  {
    if |s| > 0 {
      var n := |s| - 1;
      assert IsSpace(Lower(s)[n]) == IsSpace(s[n]);
      assert Lower(s)[..n] == Lower(s[..n]);
      RStripOfLower(s[..n]);
    }
  }

  /** Letter case does not change what `_parse_bool` says. */
  lemma ParseBoolIgnoresCase(s: string)
    ensures ParseBool(Lower(s)) == ParseBool(s)
  {
    LStripOfLower(s);
    RStripOfLower(LStrip(s));
    LowerTwice(Strip(s));
  }

  /** A word without whitespace or capitals is accepted exactly when it is
      one of the five. */
  lemma ParseBoolOfPlain(w: string)
    requires forall i :: 0 <= i < |w| ==> !IsSpace(w[i]) && LowerChar(w[i]) == w[i]
    ensures ParseBool(w) <==> IsTrueWord(w)
  {
    StripOfNoSpace(w);
    assert Lower(w) == w;
  }

  /** The five words are accepted. */
  lemma ParseBoolAccepts(w: string)
    requires IsTrueWord(w)
    ensures ParseBool(w)
  {
    forall i | 0 <= i < |w| ensures 'a' <= w[i] <= 'z' || '0' <= w[i] <= '9' {
    }
    ParseBoolOfPlain(w);
  }

  // ---------------------------------------------------------------------
  // _normalize_types and dataclasses.replace
  // ---------------------------------------------------------------------

  /** The value `_normalize_types` stores for field `k`: a string for the
      output directory or the metadata file becomes a path. */
  function NormalizeValue(k: ConfigKey, v: Value): (r: Value)
    ensures r != v ==> (k == Output || k == SaveMetadata) && v.VStr?
  {
    if (k == Output || k == SaveMetadata) && v.VStr? then VPath(Paths.Normalize(v.s)) else v
  }

  /** `_normalize_types(updates)`: the same keys; only the two path fields
      given as strings change, to paths; every other entry is copied. */
  function NormalizeTypes(u: map<ConfigKey, Value>): (r: map<ConfigKey, Value>)
    ensures r.Keys == u.Keys
    ensures forall k :: k in u && (k == Output || k == SaveMetadata) && u[k].VStr? ==> r[k] == VPath(Paths.Normalize(u[k].s))
    ensures forall k :: k in u && !((k == Output || k == SaveMetadata) && u[k].VStr?) ==> r[k] == u[k]
  {
    map k | k in u :: NormalizeValue(k, u[k])
  }

  /** Normalising twice is normalising once. */
  lemma NormalizeTypesIdempotent(u: map<ConfigKey, Value>)
    ensures NormalizeTypes(NormalizeTypes(u)) == NormalizeTypes(u)
  {
  }

  /** The value field `k` has after replacing. */
  function Pick(cfg: AppConfig, u: map<ConfigKey, Value>, k: ConfigKey): (v: Value)
    ensures k in u ==> v == u[k]
    ensures k !in u ==> v == cfg.Get(k)
  {
    if k in u then u[k] else cfg.Get(k)
  }

  /** `replace(cfg, **updates)`: the fields in `updates` take their new
      values, the others keep theirs. */
  function Replace(cfg: AppConfig, u: map<ConfigKey, Value>): (r: AppConfig)
    ensures forall k :: r.Get(k) == Pick(cfg, u, k)
  {
    Build(k => Pick(cfg, u, k))
  }

  /** With nothing to replace the configuration is unchanged, which is what
      the early returns on an empty dictionary return. */
  lemma ReplaceNothing(cfg: AppConfig)
    ensures Replace(cfg, map[]) == cfg
  {
    ConfigExtensional(Replace(cfg, map[]), cfg);
  }

  // ---------------------------------------------------------------------
  // _apply_file_overrides
  // ---------------------------------------------------------------------

  /** `asdict` lists every field. */
  lemma AllKeys()
    ensures forall k :: k in ConfigKeys
  {
    forall k
      ensures k in ConfigKeys
    {
      ConfigKeysComplete(k);
    }
  }

  /** The value the file gives field `k`: present and not `None`. */
  function FileValue(file: map<string, Value>, k: ConfigKey): (r: Option<Value>)
    ensures r.Some? <==> KeyName(k) in file && file[KeyName(k)] != VNone
  {
    var name := KeyName(k);
    if name in file && file[name] != VNone then Some(file[name]) else None
  }

  /** The loop both override functions run over the fields: the `updates`
      dictionary holds the fields `over` gives a value, with that value. */
  method CollectUpdates(over: ConfigKey -> Option<Value>) returns (updates: map<ConfigKey, Value>)
    ensures forall k :: k in updates <==> over(k).Some?
    ensures forall k :: k in updates ==> updates[k] == over(k).value
  {
    updates := map[];
    for i := 0 to |ConfigKeys|
      invariant forall k :: k in updates <==> k in ConfigKeys[..i] && over(k).Some?
      invariant forall k :: k in updates ==> updates[k] == over(k).value
    {
      var key := ConfigKeys[i];
      assert ConfigKeys[..i + 1] == ConfigKeys[..i] + [key];
      var v := over(key);
      if v.Some? {
        updates := updates[key := v.value];
      }
    }
    assert ConfigKeys[..|ConfigKeys|] == ConfigKeys;
    AllKeys();
  }

  /** `_apply_file_overrides(base, cfg_dict)`: every field the file gives a
      value other than `None` takes that value, normalised; every other field,
      and every key of the file that is not a field, is left alone. */
  method ApplyFileOverrides(base: AppConfig, file: map<string, Value>) returns (cfg: AppConfig)
    ensures file == map[] ==> cfg == base
    ensures forall k :: FileValue(file, k).Some? ==> cfg.Get(k) == NormalizeValue(k, FileValue(file, k).value)
    ensures forall k :: FileValue(file, k).None? ==> cfg.Get(k) == base.Get(k)
  {
    if |file| == 0 {
      return base;
    }
    var updates := CollectUpdates(k => FileValue(file, k));
    cfg := Replace(base, NormalizeTypes(updates));
  }

  // ---------------------------------------------------------------------
  // _apply_env_overrides
  // ---------------------------------------------------------------------

  /** The subtitle languages `YTD_SUBTITLES` lists: split on commas,
      stripped, empty ones dropped. */
  function SubtitleList(raw: string): (r: seq<string>)
    ensures forall i :: 0 <= i < |r| ==> r[i] != "" && ',' !in r[i]
  {
    var parts := Split(raw, ',');
    var r := NonEmptyStripped(parts);
    NonEmptyStrippedKeeps(parts, ',');
    assert forall i :: 0 <= i < |r| ==> r[i] in r;
    r
  }

  /** Languages without commas or whitespace, joined by commas, are read
      back as they are. */
  lemma {:induction false} SubtitlesRoundTrip(names: seq<string>)
    requires |names| >= 1
    requires forall i :: 0 <= i < |names| ==> names[i] != "" && ',' !in names[i]
    requires forall i, j :: 0 <= i < |names| && 0 <= j < |names[i]| ==> !IsSpace(names[i][j])
    ensures SubtitleList(Join(names, ',')) == names
  {
    SplitOfJoin(names, ',');
    NonEmptyStrippedOfWords(names);
  }

  /** The list value of the subtitle languages. */
  function StrList(names: seq<string>): (vs: seq<Value>)
    ensures |vs| == |names| && forall i :: 0 <= i < |vs| ==> vs[i] == VStr(names[i])
  {
    seq(|names|, i requires 0 <= i < |names| => VStr(names[i]))
  }

  /** What `_apply_env_overrides` stores for field `k` when its variable is
      set to `raw`: `None` when `int()` or `float()` reject the text. */
  function EnvValue(reading: Reading, k: ConfigKey, raw: string, parseFloat: string -> Option<Value>): Option<Value>
  {
    if k == Output || k == SaveMetadata then Some(VStr(raw))
    else if k == Subtitles then Some(VList(StrList(SubtitleList(raw))))
    else if k == Retry then
      match ParseInt(raw)
      case Some(n) => Some(VInt(n))
      case None => None
    else if k == RetryDelay then parseFloat(raw)
    else if k == AudioOnly then Some(VBool(ParseBool(raw)))
    else if k == PauseBetweenVideos && reading == Corrected then Some(VBool(ParseBool(raw)))
    else Some(VStr(raw))
  }

  /** The value the environment gives field `k`, if any. */
  function EnvOverride(reading: Reading, k: ConfigKey, env: map<string, string>, parseFloat: string -> Option<Value>): (r: Option<Value>)
    ensures r.Some? ==> EnvName(k).Some? && EnvName(k).value in env
    ensures EnvName(k).Some? && EnvName(k).value in env ==> r == EnvValue(reading, k, env[EnvName(k).value], parseFloat)
  {
    match EnvName(k)
    case Some(name) => if name in env then EnvValue(reading, k, env[name], parseFloat) else None
    case None => None
  }

  /** `_apply_env_overrides(base)` with the environment `env`: every field
      whose variable is set and converts takes the converted value,
      normalised; every other field is left alone. */
  method ApplyEnvOverrides(reading: Reading, base: AppConfig, env: map<string, string>,
                           parseFloat: string -> Option<Value>) returns (cfg: AppConfig)
    ensures forall k :: EnvOverride(reading, k, env, parseFloat).Some? ==>
              cfg.Get(k) == NormalizeValue(k, EnvOverride(reading, k, env, parseFloat).value)
    ensures forall k :: EnvOverride(reading, k, env, parseFloat).None? ==> cfg.Get(k) == base.Get(k)
  {
    var updates := CollectUpdates(k => EnvOverride(reading, k, env, parseFloat));
    if updates == map[] {
      forall k
        ensures EnvOverride(reading, k, env, parseFloat).None?
      {
        assert k !in updates;
      }
      return base;
    }
    cfg := Replace(base, NormalizeTypes(updates));
  }

  /** As written, `YTD_PAUSE_BETWEEN_VIDEOS` is stored as its raw text, so
      every non-empty value, `false` and `0` included, turns pausing on. */
  lemma PauseAsWritten(env: map<string, string>, parseFloat: string -> Option<Value>)
    requires "YTD_PAUSE_BETWEEN_VIDEOS" in env
    ensures EnvOverride(AsWritten, PauseBetweenVideos, env, parseFloat) == Some(VStr(env["YTD_PAUSE_BETWEEN_VIDEOS"]))
    ensures Truthy(EnvOverride(AsWritten, PauseBetweenVideos, env, parseFloat).value)
            <==> env["YTD_PAUSE_BETWEEN_VIDEOS"] != ""
  {
  }

  /** Read through `_parse_bool`, the pause option is on exactly when the
      variable holds one of the five words, and `false` turns it off. */
  lemma PauseCorrected(env: map<string, string>, parseFloat: string -> Option<Value>)
    requires "YTD_PAUSE_BETWEEN_VIDEOS" in env
    ensures var v := EnvOverride(Corrected, PauseBetweenVideos, env, parseFloat);
      && v.Some? && v.value.VBool?
      && (Truthy(v.value) <==> IsTrueWord(Lower(Strip(env["YTD_PAUSE_BETWEEN_VIDEOS"]))))
  {
  }

  // ---------------------------------------------------------------------
  // load_config and merge_cli_overrides
  // ---------------------------------------------------------------------

  /** The file `load_config` reads: the path it is given, else the non-empty
      `YTD_CONFIG` variable, else `ytd.config.yaml` in the working
      directory (the working directory is not modelled). */
  function ConfigFile(configPath: Option<string>, env: map<string, string>): (path: string)
    ensures configPath.Some? ==> path == configPath.value
    ensures configPath.None? && "YTD_CONFIG" in env && env["YTD_CONFIG"] != "" ==> path == Paths.Normalize(env["YTD_CONFIG"])
    ensures configPath.None? && !("YTD_CONFIG" in env && env["YTD_CONFIG"] != "") ==> path == "ytd.config.yaml"
  {
    match configPath
    case Some(p) => p
    case None =>
      if "YTD_CONFIG" in env && env["YTD_CONFIG"] != "" then Paths.Normalize(env["YTD_CONFIG"])
      else "ytd.config.yaml"
  }

  /** `load_config(config_path)` before paths are made absolute: each field
      comes from the environment if its variable is set and converts, else
      from the file if it gives a value, else from the defaults. */
  method LoadConfig(configPath: Option<string>, env: map<string, string>,
                    loadYaml: string -> map<string, Value>, parseFloat: string -> Option<Value>)
    returns (cfg: AppConfig)
    ensures var file := loadYaml(ConfigFile(configPath, env));
      forall k :: cfg.Get(k) ==
        match EnvOverride(AsWritten, k, env, parseFloat)
        case Some(v) => NormalizeValue(k, v)
        case None =>
          match FileValue(file, k)
          case Some(v) => NormalizeValue(k, v)
          case None => DefaultConfig().Get(k)
  {
    var path := ConfigFile(configPath, env);
    var fileData := loadYaml(path);
    cfg := ApplyFileOverrides(DefaultConfig(), fileData);
    cfg := ApplyEnvOverrides(AsWritten, cfg, env, parseFloat);
  }

  /** The command-line options `merge_cli_overrides` applies: those that are
      not `None`. */
  function Given(overrides: map<string, Value>): (g: map<string, Value>)
    ensures forall n :: n in g <==> n in overrides && overrides[n] != VNone
    ensures forall n :: n in g ==> g[n] == overrides[n]
  {
    map n | n in overrides && overrides[n] != VNone :: overrides[n]
  }

  /** Options by field. */
  function ByField(g: map<string, Value>): (u: map<ConfigKey, Value>)
    ensures forall k :: k in u <==> KeyName(k) in g
    ensures forall k :: k in u ==> u[k] == g[KeyName(k)]
  {
    AllKeys();
    map k | k in ConfigKeys && KeyName(k) in g :: g[KeyName(k)]
  }

  /** `merge_cli_overrides(cfg, overrides)` before paths are made absolute:
      nothing changes for an empty dictionary; an option that names no field
      makes `replace` raise `TypeError`; otherwise every option other than
      `None` replaces its field, normalised, and every other field stays. */
  function MergeCliOverrides(cfg: AppConfig, overrides: map<string, Value>): (r: Result<AppConfig, PyError>)
    ensures overrides == map[] ==> r == Ok(cfg)
    ensures r.Err? <==> exists n :: n in overrides && overrides[n] != VNone && KeyOf(n).None?
    ensures r.Err? ==> r.error == TypeError
    ensures r.Ok? ==> forall k :: KeyName(k) in overrides && overrides[KeyName(k)] != VNone ==>
                        r.value.Get(k) == NormalizeValue(k, overrides[KeyName(k)])
    ensures r.Ok? ==> forall k :: !(KeyName(k) in overrides && overrides[KeyName(k)] != VNone) ==>
                        r.value.Get(k) == cfg.Get(k)
  {
    if |overrides| == 0 then Ok(cfg)
    else
      var g := Given(overrides);
      if exists n :: n in g && KeyOf(n).None? then Err(TypeError)
      else
        Ok(Replace(cfg, NormalizeTypes(ByField(g))))
  }
}
