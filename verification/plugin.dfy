/**
 The plugin entry points of `main.py` that carry logic of their own: the
 reply envelopes, locating the plugin directory, loading and validating the
 API key, masking it for display, and the key guard in front of a download.
 Replies are modelled as the dictionaries before JSON serialisation.
 */
module PluginMain {
  import opened Wrappers
  import opened Text
  import opened Values
  import Paths
  import ApiManager
  import Manilua
  import StateStore

  // ---------------------------------------------------------------------------
  // Reply envelopes

  /** `success_response(**kwargs)`: `success` is true unless a keyword overrides it. */
  function SuccessResponse(kwargs: Fields): (r: Fields)
    ensures r.Keys == kwargs.Keys + {"success"}
    ensures "success" !in kwargs ==> Has(r, "success", VBool(true))
    ensures forall k :: k in kwargs ==> r[k] == kwargs[k]
  {
    map["success" := VBool(true)] + kwargs
  }

  /** `error_response(error, **kwargs)`; Python itself rejects a second `error` keyword. */
  function ErrorResponse(error: string, kwargs: Fields): (r: Fields)
    requires "error" !in kwargs
    ensures r.Keys == kwargs.Keys + {"success", "error"}
    ensures Has(r, "error", VStr(error))
    ensures "success" !in kwargs ==> Has(r, "success", VBool(false))
    ensures forall k :: k in kwargs ==> r[k] == kwargs[k]
  {
    map["success" := VBool(false), "error" := VStr(error)] + kwargs
  }

  // ---------------------------------------------------------------------------
  // Plugin directory

  /** The resolved path with one trailing `main.py` component cut off (eight characters). */
  function ResolvedFile(currentFile: string): string
  {
    if EndsWith(currentFile, "/main.py/main.py") || EndsWith(currentFile, "\\main.py\\main.py") then
      currentFile[..|currentFile| - 8]
    else if EndsWith(currentFile, "/main.py") || EndsWith(currentFile, "\\main.py") then
      currentFile[..|currentFile| - 8]
    else currentFile
  }

  /** The backend directory: the parent of a path still naming `main.py`, the path itself otherwise. */
  function BackendDir(file: string): string
  {
    if EndsWith(file, "main.py") then Paths.Dirname(file) else file
  }

  /** `GetPluginDir` for the resolved path of `main.py`: the parent of the backend directory. */
  function GetPluginDir(currentFile: string): string
  {
    Paths.Dirname(BackendDir(ResolvedFile(currentFile)))
  }

  lemma NoSlashLiteral(s: string)
    requires s == "backend" || s == "main.py"
    ensures Paths.NoSlash(s)
  {
  }

  /** The parent of `p/backend` is `p`. */
  lemma BackendParent(p: string)
    requires |p| > 0 && p[|p| - 1] != '/'
    ensures Paths.Dirname(p + "/backend") == p
  {
    NoSlashLiteral("backend");
    Paths.DirnameOfChild(p, "backend");
    assert p + "/" + "backend" == p + "/backend";
  }

  /** The parent of `backend/main.py` is `backend`. */
  lemma MainInBackend(backend: string)
    requires |backend| > 0 && backend[|backend| - 1] == 'd'
    ensures Paths.Dirname(backend + "/main.py") == backend
  {
    NoSlashLiteral("main.py");
    Paths.DirnameOfChild(backend, "main.py");
    assert backend + "/" + "main.py" == backend + "/main.py";
  }

  /** `backend/main.py` resolves to `backend`. */
  lemma ResolvedPlain(backend: string)
    requires |backend| > 0 && backend[|backend| - 1] == 'd'
    ensures ResolvedFile(backend + "/main.py") == backend
  {
    var plain := backend + "/main.py";
    assert !EndsWith(plain, "/main.py/main.py") by {
      assert plain[|plain| - 9] == 'd';
    }
    assert !EndsWith(plain, "\\main.py\\main.py") by {
      assert plain[|plain| - 8] == '/';
    }
    assert plain[|plain| - 8..] == "/main.py";
    assert plain[..|plain| - 8] == backend;
  }

  /** `plain/main.py` resolves to `plain` when `plain` itself ends in `/main.py`. */
  lemma ResolvedNested(backend: string)
    ensures ResolvedFile(backend + "/main.py" + "/main.py") == backend + "/main.py"
  {
    var plain := backend + "/main.py";
    var nested := plain + "/main.py";
    assert nested[|nested| - 16..] == "/main.py/main.py";
    assert nested[..|nested| - 8] == plain;
  }

  /** A directory ending in `d` is its own backend directory. */
  lemma BackendOfDirectory(backend: string)
    requires |backend| > 0 && backend[|backend| - 1] == 'd'
    ensures BackendDir(backend) == backend
  {
    assert !EndsWith(backend, "main.py") by {
      if |backend| >= 7 {
        assert backend[|backend| - 7..][6] == 'd';
      }
    }
  }

  /** The backend directory of `backend/main.py` is `backend`. */
  lemma BackendOfMain(backend: string)
    requires |backend| > 0 && backend[|backend| - 1] == 'd'
    ensures BackendDir(backend + "/main.py") == backend
  {
    var plain := backend + "/main.py";
    assert plain[|plain| - 7..] == "main.py";
    MainInBackend(backend);
  }

  /** The usual layout: `p/backend/main.py`. */
  lemma PlainLayout(p: string)
    requires |p| > 0 && p[|p| - 1] != '/'
    ensures GetPluginDir(p + "/backend" + "/main.py") == p
  {
    hide ResolvedFile, BackendDir, Paths.Dirname;
    var backend := p + "/backend";
    assert backend[|backend| - 1] == 'd';
    ResolvedPlain(backend);
    BackendOfDirectory(backend);
    BackendParent(p);
  }

  /** The layout where `main.py` resolves to a directory holding another `main.py`. */
  lemma NestedLayout(p: string)
    requires |p| > 0 && p[|p| - 1] != '/'
    ensures GetPluginDir(p + "/backend" + "/main.py" + "/main.py") == p
  {
    hide ResolvedFile, BackendDir, Paths.Dirname;
    var backend := p + "/backend";
    assert backend[|backend| - 1] == 'd';
    ResolvedNested(backend);
    BackendOfMain(backend);
    BackendParent(p);
  }

  /** Both layouts Millennium produces lead back to the plugin directory `p`. */
  lemma PluginDirOfMain(p: string)
    requires |p| > 0 && p[|p| - 1] != '/'
    ensures GetPluginDir(p + "/backend" + "/main.py") == p
    ensures GetPluginDir(p + "/backend" + "/main.py" + "/main.py") == p
  {
    PlainLayout(p);
    NestedLayout(p);
  }

  // ---------------------------------------------------------------------------
  // The plugin and its key

  /** What `api_key.txt` gives: no file, a file that cannot be read, or its text. */
  datatype KeyFile = Missing | Unreadable | Holds(text: string)

  datatype Plugin = Plugin(
    pluginDir: string,
    backendPath: string,
    apiKey: Option<string>,
    api: ApiManager.Manager,
    manilua: Manilua.Manager)

  /** `has_api_key`: a key is configured when it is present and not blank. */
  predicate HasApiKey(p: Plugin)
  {
    p.apiKey.Some? && Strip(p.apiKey.value) != ""
  }

  /** `_load_api_key`: the file's text with surrounding whitespace removed. */
  function LoadApiKey(current: Option<string>, file: KeyFile): (r: Option<string>)
    ensures file.Holds? ==> r == Some(Strip(file.text))
    ensures !file.Holds? ==> r == current
  {
    if file.Holds? then Some(Strip(file.text)) else current
  }

  /** `Plugin.__init__`: derive the paths, load the key, hand a usable key to both managers. */
  function Init(currentFile: string, file: KeyFile): Plugin
  {
    var dir := GetPluginDir(currentFile);
    var backend := Paths.Join(dir, "backend");
    var key := LoadApiKey(None, file);
    var p := Plugin(dir, backend, key, ApiManager.New(backend), Manilua.NewManager(backend));
    if HasApiKey(p) then
      p.(api := ApiManager.SetApiKey(p.api, key.value), manilua := Manilua.SetApiKey(p.manilua, key.value))
    else p
  }

  /** A key is configured exactly when it holds a character that is not whitespace. */
  lemma HasApiKeyIff(p: Plugin)
    ensures HasApiKey(p) <==> p.apiKey.Some? && !AllSpace(p.apiKey.value)
  {
    if p.apiKey.Some? {
      StripEmptyIffAllSpace(p.apiKey.value);
    }
  }

  /**
   After start-up the key is the file's stripped text; both managers hold it
   exactly when it is not blank, and hold nothing otherwise.
   */
  lemma InitLoadsStrippedKey(currentFile: string, text: string)
    ensures var p := Init(currentFile, Holds(text));
      && p.apiKey == Some(Strip(text))
      && (Strip(text) != "" ==> p.api.key == Some(Strip(text)) && p.manilua.apiKey == Some(Strip(text)))
      && (Strip(text) == "" ==> p.api.key.None? && p.manilua.apiKey.None?)
    ensures var p := Init(currentFile, Holds(text));
      p.apiKey.Some? ==> Strip(p.apiKey.value) == p.apiKey.value
  {
    StripIdempotent(text);
  }

  /** Without a key file, or with one that cannot be read, the plugin starts without a key. */
  lemma InitWithoutKey(currentFile: string, file: KeyFile)
    requires !file.Holds?
    ensures !HasApiKey(Init(currentFile, file))
    ensures Init(currentFile, file).api.key.None? && Init(currentFile, file).manilua.apiKey.None?
  {
  }

  // ---------------------------------------------------------------------------
  // SetAPIKey

  /** A call argument: a string, or anything else. */
  datatype Arg = Str(s: string) | Other

  /** The value of keyword `name`, if given. */
  function Keyword(kwargs: seq<(string, Arg)>, name: string): (r: Option<Arg>)
    ensures r.Some? <==> exists i :: 0 <= i < |kwargs| && kwargs[i].0 == name
    ensures r.Some? ==> exists i :: 0 <= i < |kwargs| && kwargs[i] == (name, r.value)
    decreases |kwargs|
  {
    if |kwargs| == 0 then None
    else if kwargs[0].0 == name then Some(kwargs[0].1)
    else
      var r := Keyword(kwargs[1..], name);
      assert forall i :: 0 < i < |kwargs| ==> kwargs[i] == kwargs[1..][i - 1];
      r
  }

  /** The key `SetAPIKey` looks at: first positional, else `api_key=`, else a sole keyword. */
  function KeyArgument(args: seq<Arg>, kwargs: seq<(string, Arg)>): Option<Arg>
  {
    if |args| > 0 then Some(args[0])
    else if Keyword(kwargs, "api_key").Some? then Keyword(kwargs, "api_key")
    else if |kwargs| == 1 then Some(kwargs[0].1)
    else None
  }

  lemma KeyArgumentChoice(args: seq<Arg>, kwargs: seq<(string, Arg)>)
    ensures |args| > 0 ==> KeyArgument(args, kwargs) == Some(args[0])
    ensures |args| == 0 && (exists i :: 0 <= i < |kwargs| && kwargs[i].0 == "api_key") ==>
      KeyArgument(args, kwargs).Some? && exists i :: 0 <= i < |kwargs| && kwargs[i] == ("api_key", KeyArgument(args, kwargs).value)
    ensures |args| == 0 && |kwargs| == 1 ==> KeyArgument(args, kwargs) == Some(kwargs[0].1)
    ensures |args| == 0 && |kwargs| != 1 && (forall i :: 0 <= i < |kwargs| ==> kwargs[i].0 != "api_key") ==>
      KeyArgument(args, kwargs).None?
  {
    if |args| == 0 && |kwargs| == 1 && kwargs[0].0 == "api_key" {
      assert Keyword(kwargs, "api_key") == Some(kwargs[0].1);
    }
  }

  datatype Answer = Answer(reply: Fields, plugin: Plugin)

  const ConfiguredMessage := "API key configured successfully"

  /**
   `SetAPIKey(*args, **kwargs)`: reject a missing, empty or non-string key and
   one without the configured prefix; otherwise save it (`saved` says whether
   writing the file worked) and hand it to both managers.
   */
  function SetAPIKey(p: Plugin, prefix: string, saved: bool, args: seq<Arg>, kwargs: seq<(string, Arg)>): Answer
  {
    match KeyArgument(args, kwargs)
    case Some(Str(key)) =>
      if key == "" then Answer(ErrorResponse("Invalid API key", map[]), p)
      else if !StartsWith(key, prefix) then
        Answer(ErrorResponse("Invalid API key format (must start with " + prefix + ")", map[]), p)
      else
        var p1 := if saved then p.(apiKey := Some(key)) else p;
        Answer(SuccessResponse(map["message" := VStr(ConfiguredMessage)]),
               p1.(api := ApiManager.SetApiKey(p1.api, key), manilua := Manilua.SetApiKey(p1.manilua, key)))
    case _ => Answer(ErrorResponse("Invalid API key", map[]), p)
  }

  /**
   A rejected key changes nothing and replies with an error: a non-empty
   string without the prefix is told the expected prefix, anything else that
   it is invalid.
   */
  lemma SetAPIKeyRejects(p: Plugin, prefix: string, saved: bool, args: seq<Arg>, kwargs: seq<(string, Arg)>)
    requires !(KeyArgument(args, kwargs).Some? && KeyArgument(args, kwargs).value.Str?
               && KeyArgument(args, kwargs).value.s != ""
               && StartsWith(KeyArgument(args, kwargs).value.s, prefix))
    ensures var a := SetAPIKey(p, prefix, saved, args, kwargs);
      a.plugin == p && Has(a.reply, "success", VBool(false))
    ensures var k := KeyArgument(args, kwargs);
      var a := SetAPIKey(p, prefix, saved, args, kwargs);
      && (k.Some? && k.value.Str? && k.value.s != "" ==>
            Has(a.reply, "error", VStr("Invalid API key format (must start with " + prefix + ")")))
      && (!(k.Some? && k.value.Str? && k.value.s != "") ==> Has(a.reply, "error", VStr("Invalid API key")))
  {
  }

  /**
   An accepted key is handed to both managers; the plugin's own copy, which
   `has_api_key` consults, changes only when saving the file worked.
   */
  lemma SetAPIKeyAccepts(p: Plugin, prefix: string, saved: bool, args: seq<Arg>, kwargs: seq<(string, Arg)>, key: string)
    requires KeyArgument(args, kwargs) == Some(Str(key)) && key != "" && StartsWith(key, prefix)
    ensures var a := SetAPIKey(p, prefix, saved, args, kwargs);
      && Has(a.reply, "success", VBool(true))
      && Has(a.reply, "message", VStr(ConfiguredMessage))
      && a.plugin.api.key == Some(key) && a.plugin.manilua.apiKey == Some(key)
      && a.plugin.apiKey == (if saved then Some(key) else p.apiKey)
      && a.plugin.manilua.store == p.manilua.store
  {
  }

  // ---------------------------------------------------------------------------
  // GetAPIKeyStatus

  /** The key as shown to the user. */
  function MaskKey(key: string): string
  {
    if |key| > 16 then key[..12] + "..." + key[|key| - 4..]
    else key[..if |key| < 8 then |key| else 8] + "..."
  }

  /**
   A long key shows its first 12 and last 4 characters around `...` (19
   characters in all); a short one at most its first 8. At most 16 key
   characters are ever shown, and always fewer than a long key has.
   */
  lemma MaskShape(key: string)
    ensures |key| > 16 ==>
      var m := MaskKey(key);
      |m| == 19 && m[..12] == key[..12] && m[12..15] == "..." && m[15..] == key[|key| - 4..]
    ensures |key| <= 16 ==>
      var shown := if |key| < 8 then |key| else 8;
      MaskKey(key) == key[..shown] + "..."
    ensures |MaskKey(key)| - 3 <= 16
    ensures |key| > 16 ==> |MaskKey(key)| - 3 < |key|
    ensures EndsWith(MaskKey(key), "...") || |key| > 16
  {
    var m := MaskKey(key);
    if |key| <= 16 {
      assert m[|m| - 3..] == "...";
    }
  }

  /** The keyword arguments `GetAPIKeyStatus` hands to `success_response`, given the masked key if one is set. */
  function KeyStatusFields(masked: Option<string>): (r: Fields)
    ensures "success" !in r
    ensures Has(r, "hasKey", VBool(masked.Some?))
    ensures masked.Some? <==> "maskedKey" in r
  {
    match masked
    case Some(m) =>
      map["hasKey" := VBool(true), "maskedKey" := VStr(m),
          "isValid" := VBool(true), "message" := VStr("API key is configured")]
    case None =>
      map["hasKey" := VBool(false),
          "message" := VStr("No API key configured. Please set an API key from www.piracybound.com/manilua")]
  }

  /** `GetAPIKeyStatus`: always a success, saying whether a key is set and, only then, its masked form. */
  function GetAPIKeyStatus(p: Plugin): (r: Fields)
    ensures Has(r, "success", VBool(true))
    ensures Has(r, "hasKey", VBool(HasApiKey(p)))
    ensures HasApiKey(p) <==> "maskedKey" in r
    ensures HasApiKey(p) ==> Has(r, "maskedKey", VStr(MaskKey(p.apiKey.value)))
  {
    SuccessResponse(KeyStatusFields(if HasApiKey(p) then Some(MaskKey(p.apiKey.value)) else None))
  }

  // ---------------------------------------------------------------------------
  // addViamanilua

  const NoKeyMessage := "No API key configured. Please set an API key first."

  /** `addViamanilua(appid)`: without a key nothing is queued; with one, intake with the manager's endpoints. */
  function AddViaManilua(p: Plugin, arg: Manilua.AppIdArg): Answer
  {
    if !HasApiKey(p) then
      Answer(ErrorResponse(NoKeyMessage, map["requiresNewKey" := VBool(true)]), p)
    else
      var intake := Manilua.AddViaLua(p.manilua.store, arg, Some(ApiManager.GetDownloadEndpoints(p.api)));
      Answer(intake.reply, p.(manilua := p.manilua.(store := intake.store)))
  }

  /** The guard: no key means an error asking for a new key and an untouched store. */
  lemma AddWithoutKey(p: Plugin, arg: Manilua.AppIdArg)
    requires !HasApiKey(p)
    ensures var a := AddViaManilua(p, arg);
      && a.plugin == p
      && Has(a.reply, "success", VBool(false))
      && Has(a.reply, "error", VStr(NoKeyMessage))
      && Has(a.reply, "requiresNewKey", VBool(true))
  {
  }

  /** With a key and a valid id, the item is queued and the run uses the `unified` endpoint. */
  lemma AddWithKey(p: Plugin, arg: Manilua.AppIdArg)
    requires HasApiKey(p) && Manilua.ParseAppId(arg).Some?
    ensures var a := AddViaManilua(p, arg);
      var appid := Manilua.ParseAppId(arg).value;
      && Has(a.reply, "success", VBool(true))
      && Has(StateStore.Read(a.plugin.manilua.store, appid), "status", VStr("queued"))
      && Manilua.AddViaLua(p.manilua.store, arg, Some(ApiManager.GetDownloadEndpoints(p.api))).job.value.endpoints
         == ["unified"]
  {
  }

  /**
   A key accepted and saved by `SetAPIKey` unlocks downloads, provided the
   configured prefix is not blank.
   */
  lemma SetKeyThenAdd(p: Plugin, prefix: string, key: string, arg: Manilua.AppIdArg)
    requires key != "" && StartsWith(key, prefix) && !AllSpace(prefix)
    requires Manilua.ParseAppId(arg).Some?
    ensures var a := SetAPIKey(p, prefix, true, [Str(key)], []);
      HasApiKey(a.plugin) && Has(AddViaManilua(a.plugin, arg).reply, "success", VBool(true))
  {
    var a := SetAPIKey(p, prefix, true, [Str(key)], []);
    assert !AllSpace(key) by {
      var i :| 0 <= i < |prefix| && !IsSpace(prefix[i]);
      assert key[i] == prefix[i];
    }
    HasApiKeyIff(a.plugin);
  }
}
