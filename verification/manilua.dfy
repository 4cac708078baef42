/**
 The entry points of `maniluaManager`: queuing an item for download, the
 download run that follows, reading its status, and removing an item's
 installed files.
 */
module Manilua {
  import opened Wrappers
  import opened Text
  import opened Values
  import opened StateStore
  import Decimal
  import Download
  import DownloadProperties

  /** The manager: where it lives, the key it was handed, and the download state store. */
  datatype Manager = Manager(backendPath: string, apiKey: Option<string>, store: Store)

  function NewManager(backendPath: string): (m: Manager)
    ensures m.backendPath == backendPath && m.apiKey.None? && m.store == map[]
  {
    Manager(backendPath, None, map[])
  }

  function SetApiKey(m: Manager, key: string): (r: Manager)
    ensures r.apiKey == Some(key)
    ensures r.backendPath == m.backendPath && r.store == m.store
  {
    m.(apiKey := Some(key))
  }

  // ---------------------------------------------------------------------------
  // Item ids

  /** The `appid` argument as it arrives from the frontend. */
  datatype AppIdArg = IntArg(i: int) | StrArg(s: string) | NoneArg

  /** `int(appid)`: `None` where Python raises `ValueError` or `TypeError`. */
  function ParseAppId(arg: AppIdArg): Option<int>
  {
    match arg
    case IntArg(i) => Some(i)
    case StrArg(s) => Decimal.ParseInt(s)
    case NoneArg => None
  }

  /** Every id survives a round trip through its decimal text. */
  lemma ParseAppIdOfText(appid: int)
    ensures ParseAppId(StrArg(Decimal.IntToString(appid))) == Some(appid)
    ensures ParseAppId(IntArg(appid)) == Some(appid)
  {
    Decimal.ParseRendered(appid);
  }

  const InvalidAppId: Fields := map["success" := VBool(false), "error" := VStr("Invalid appid")]

  // ---------------------------------------------------------------------------
  // Intake

  /** The background run `add_via_lua` starts: the item and the endpoints it was given. */
  datatype Job = Job(appid: int, endpoints: seq<string>)

  datatype Intake = Intake(reply: Fields, store: Store, job: Option<Job>)

  const Queued: Fields := map["status" := VStr("queued"), "bytesRead" := VInt(0), "totalBytes" := VInt(0)]

  /** `add_via_lua(appid, endpoints)`: validate the id, queue it, start the run. */
  function AddViaLua(store: Store, arg: AppIdArg, endpoints: Option<seq<string>>): (r: Intake)
    ensures ParseAppId(arg).None? ==> r == Intake(InvalidAppId, store, None)
    ensures ParseAppId(arg).Some? ==>
      var appid := ParseAppId(arg).value;
      && r.reply == map["success" := VBool(true)]
      && r.job.Some? && r.job.value.appid == appid
      && r.store == Write(store, appid, Queued)
      && (endpoints.Some? && |endpoints.value| > 0 ==> r.job.value.endpoints == endpoints.value)
      && (endpoints.None? || endpoints.value == [] ==> r.job.value.endpoints == ["unified"])
  {
    match ParseAppId(arg)
    case None => Intake(InvalidAppId, store, None)
    case Some(appid) =>
      var available := if endpoints.Some? && |endpoints.value| > 0 then endpoints.value else ["unified"];
      Intake(map["success" := VBool(true)], Write(store, appid, Queued), Some(Job(appid, available)))
  }

  /** `_check_availability_and_download`: the candidate endpoints are ignored and `unified` is used. */
  function CheckAvailabilityAndDownload(job: Job, env: Download.Env): (r: Download.Run)
    ensures |r.updates| >= 2
    ensures StatusOf(r.updates[0]) == Some("checking")
    ensures Has(r.updates[0], "endpoint", VStr("unified"))
    ensures Download.ScratchPath(env.backendPath, job.appid) !in r.disk.files
  {
    DownloadProperties.ScratchRemoved(job.appid, "unified", env);
    Download.Worker(job.appid, "unified", env)
  }

  /** The run depends on the item's id alone, not on the endpoints it was queued with. */
  lemma EndpointsIgnored(appid: int, e1: seq<string>, e2: seq<string>, env: Download.Env)
    ensures CheckAvailabilityAndDownload(Job(appid, e1), env) == CheckAvailabilityAndDownload(Job(appid, e2), env)
  {
  }

  /** A 404 from the server ends the run `failed`, naming the item that was asked for. */
  lemma CheckNotFoundNamesItem(job: Job, env: Download.Env, before: Fields)
    requires env.transport.Opened? && env.transport.response.status == 404
    ensures var s := Merged(before, CheckAvailabilityAndDownload(job, env).updates);
      Has(s, "status", VStr("failed"))
      && Has(s, "error", VStr("Download failed: Game " + Decimal.IntToString(job.appid) + " not found"))
  {
    DownloadProperties.NotFoundFails(job.appid, "unified", env, before);
  }

  /** The store once the run started by an intake has finished. */
  function Lifecycle(store: Store, arg: AppIdArg, endpoints: Option<seq<string>>, env: Download.Env): Store
  {
    var intake := AddViaLua(store, arg, endpoints);
    match intake.job
    case None => intake.store
    case Some(job) => WriteAll(intake.store, job.appid, CheckAvailabilityAndDownload(job, env).updates)
  }

  /** An intake queues the item and touches no other item. */
  lemma IntakeQueues(store: Store, arg: AppIdArg, endpoints: Option<seq<string>>, other: int)
    requires ParseAppId(arg).Some?
    ensures var appid := ParseAppId(arg).value;
      var s := Read(AddViaLua(store, arg, endpoints).store, appid);
      Has(s, "status", VStr("queued")) && Has(s, "bytesRead", VInt(0)) && Has(s, "totalBytes", VInt(0))
    ensures other != ParseAppId(arg).value ==>
      Read(AddViaLua(store, arg, endpoints).store, other) == Read(store, other)
  {
    var appid := ParseAppId(arg).value;
    assert AddViaLua(store, arg, endpoints).store == Write(store, appid, Queued);
    ReadAfterWrite(store, appid, Queued, other);
    var s := Read(store, appid) + Queued;
    assert s["status"] == VStr("queued") && s["bytesRead"] == VInt(0) && s["totalBytes"] == VInt(0);
  }

  /**
   Whatever the network and the archive do, a queued item ends in a terminal
   status (`done`, `failed` or `auth_failed`), and no other item's state changes.
   */
  lemma LifecycleEndsTerminal(store: Store, arg: AppIdArg, endpoints: Option<seq<string>>, env: Download.Env, other: int)
    requires ParseAppId(arg).Some?
    ensures var s := Read(Lifecycle(store, arg, endpoints, env), ParseAppId(arg).value);
      "status" in s && s["status"].VStr? && DownloadProperties.Terminal(s["status"].s)
    ensures other != ParseAppId(arg).value ==>
      Read(Lifecycle(store, arg, endpoints, env), other) == Read(store, other)
  {
    hide Download.Worker, Download.Transfer;
    var appid := ParseAppId(arg).value;
    var intake := AddViaLua(store, arg, endpoints);
    var run := CheckAvailabilityAndDownload(intake.job.value, env);
    WriteAllMerges(intake.store, appid, run.updates);
    DownloadProperties.FinalStatusIsLast(appid, "unified", env, Read(intake.store, appid));
  }

  /** An invalid id leaves the store as it was and starts nothing. */
  lemma InvalidIntakeChangesNothing(store: Store, arg: AppIdArg, endpoints: Option<seq<string>>, env: Download.Env)
    requires ParseAppId(arg).None?
    ensures Lifecycle(store, arg, endpoints, env) == store
    ensures AddViaLua(store, arg, endpoints).reply == InvalidAppId
  {
  }

  // ---------------------------------------------------------------------------
  // Removal

  function LuaName(appid: int): string
  {
    Decimal.IntToString(appid) + ".lua"
  }

  function DisabledName(appid: int): string
  {
    LuaName(appid) + ".disabled"
  }

  predicate IsManifestOf(appid: int, name: string)
  {
    StartsWith(name, Decimal.IntToString(appid) + "_") && EndsWith(name, ".manifest")
  }

  /** The files `remove_via_lua(appid)` deletes. */
  predicate Selected(appid: int, name: string)
  {
    name == LuaName(appid) || name == DisabledName(appid) || IsManifestOf(appid, name)
  }

  /** The manifests of `appid` in listing order. */
  function Manifests(appid: int, names: seq<string>): (r: seq<string>)
    ensures forall n :: n in r <==> n in names && IsManifestOf(appid, n)
    ensures (forall n :: n in names ==> !IsManifestOf(appid, n)) ==> r == []
    decreases |names|
  {
    if |names| == 0 then []
    else (if IsManifestOf(appid, names[0]) then [names[0]] else []) + Manifests(appid, names[1..])
  }

  /** The listing without the given names. */
  function Without(names: seq<string>, gone: set<string>): (r: seq<string>)
    ensures forall n :: n in r <==> n in names && n !in gone
    decreases |names|
  {
    if |names| == 0 then []
    else (if names[0] in gone then [] else [names[0]]) + Without(names[1..], gone)
  }

  datatype Removal = Removal(reply: Fields, listing: seq<string>)

  /** The two script names of an item, enabled and disabled. */
  function Scripts(appid: int): set<string>
  {
    {LuaName(appid), DisabledName(appid)}
  }

  /** What `remove_via_lua` deletes, in order: the script, the disabled script, the manifests. */
  function Removed(appid: int, listing: seq<string>): seq<string>
  {
    (if LuaName(appid) in listing then [LuaName(appid)] else [])
    + (if DisabledName(appid) in listing then [DisabledName(appid)] else [])
    + Manifests(appid, Without(listing, Scripts(appid)))
  }

  /** The listing once the scripts and then the manifests are gone. */
  function Remaining(appid: int, listing: seq<string>): seq<string>
  {
    var rest := Without(listing, Scripts(appid));
    Without(rest, set n | n in Manifests(appid, rest))
  }

  /**
   `remove_via_lua(appid)` over the plugin directory's listing: the script,
   then the disabled script, then the manifests in listing order.
   */
  function RemoveViaLua(arg: AppIdArg, listing: seq<string>): Removal
  {
    match ParseAppId(arg)
    case None => Removal(InvalidAppId, listing)
    case Some(appid) =>
      var removed := Removed(appid, listing);
      var left := Remaining(appid, listing);
      if |removed| > 0 then
        Removal(map["success" := VBool(true),
                    "message" := VStr("Removed " + Decimal.IntToString(|removed|) + " files"),
                    "removed_files" := VStrs(removed)], left)
      else
        Removal(map["success" := VBool(false),
                    "error" := VStr("No files found for app " + Decimal.IntToString(appid))], left)
  }

  /** `removed_files` of a reply, empty when the reply has none. */
  function RemovedFiles(r: Removal): seq<string>
  {
    if "removed_files" in r.reply && r.reply["removed_files"].VStrs? then r.reply["removed_files"].items else []
  }

  /** A valid id's removal reports `Removed` and leaves `Remaining`. */
  lemma RemovalParts(appid: int, listing: seq<string>)
    ensures RemovedFiles(RemoveViaLua(IntArg(appid), listing)) == Removed(appid, listing)
    ensures RemoveViaLua(IntArg(appid), listing).listing == Remaining(appid, listing)
  {
    hide Removed, Remaining;
  }

  lemma ManifestsAreNotScripts(appid: int, name: string)
    requires IsManifestOf(appid, name)
    ensures name != LuaName(appid) && name != DisabledName(appid)
  {
    assert name[|name| - 1] == 't';
    var l := LuaName(appid);
    var d := DisabledName(appid);
    assert l[|l| - 1] == 'a';
    assert d[|d| - 1] == 'd';
  }

  /**
   Removal deletes exactly the item's selected files: a file leaves the listing
   if and only if it is selected, and `removed_files` lists exactly those.
   */
  lemma RemovesExactlySelected(appid: int, listing: seq<string>, name: string)
    ensures var r := RemoveViaLua(IntArg(appid), listing);
      name in r.listing <==> name in listing && !Selected(appid, name)
    ensures var r := RemoveViaLua(IntArg(appid), listing);
      name in RemovedFiles(r) <==> name in listing && Selected(appid, name)
  {
    hide RemoveViaLua, RemovedFiles;
    RemovalParts(appid, listing);
    if IsManifestOf(appid, name) {
      ManifestsAreNotScripts(appid, name);
    }
  }

  /** When something was selected, the reply is a success counting the removed files. */
  lemma RemovalSucceeds(appid: int, listing: seq<string>, name: string)
    requires name in listing && Selected(appid, name)
    ensures var r := RemoveViaLua(IntArg(appid), listing);
      && Has(r.reply, "success", VBool(true))
      && Has(r.reply, "message", VStr("Removed " + Decimal.IntToString(|RemovedFiles(r)|) + " files"))
  {
    RemovesExactlySelected(appid, listing, name);
  }

  /** When nothing was selected, the reply is "No files found" and the listing is unchanged. */
  lemma NothingFound(appid: int, listing: seq<string>)
    requires forall n :: n in listing ==> !Selected(appid, n)
    ensures var r := RemoveViaLua(IntArg(appid), listing);
      && Has(r.reply, "success", VBool(false))
      && Has(r.reply, "error", VStr("No files found for app " + Decimal.IntToString(appid)))
      && r.listing == listing
  {
    var rest := Without(listing, {LuaName(appid), DisabledName(appid)});
    WithoutNothing(listing, {LuaName(appid), DisabledName(appid)});
    assert Manifests(appid, rest) == [];
    assert (set n | n in Manifests(appid, rest)) == {};
    WithoutNothing(rest, {});
    assert LuaName(appid) !in listing && DisabledName(appid) !in listing;
  }

  lemma {:induction false} WithoutNothing(names: seq<string>, gone: set<string>)
    requires forall n :: n in names ==> n !in gone
    ensures Without(names, gone) == names
    decreases |names|
  {
    if |names| > 0 {
      WithoutNothing(names[1..], gone);
      assert names == [names[0]] + names[1..];
    }
  }

  /** Dropping names that are not manifests does not change the manifests found. */
  lemma {:induction false} ManifestsWithout(appid: int, names: seq<string>, gone: set<string>)
    requires forall n :: n in gone ==> !IsManifestOf(appid, n)
    ensures Manifests(appid, Without(names, gone)) == Manifests(appid, names)
    decreases |names|
  {
    if |names| > 0 {
      ManifestsWithout(appid, names[1..], gone);
      var tail := Without(names[1..], gone);
      if names[0] !in gone {
        assert Without(names, gone) == [names[0]] + tail;
        assert ([names[0]] + tail)[1..] == tail;
      } else {
        assert Without(names, gone) == tail;
      }
    }
  }

  /**
   `removed_files` comes in three groups: the script, the disabled script,
   then every manifest of the item in listing order.
   */
  lemma RemovalOrder(appid: int, listing: seq<string>)
    ensures RemovedFiles(RemoveViaLua(IntArg(appid), listing))
      == (if LuaName(appid) in listing then [LuaName(appid)] else [])
       + (if DisabledName(appid) in listing then [DisabledName(appid)] else [])
       + Manifests(appid, listing)
  {
    hide RemoveViaLua, RemovedFiles;
    RemovalParts(appid, listing);
    var gone := Scripts(appid);
    forall n | n in gone ensures !IsManifestOf(appid, n) {
      if IsManifestOf(appid, n) {
        ManifestsAreNotScripts(appid, n);
      }
    }
    ManifestsWithout(appid, listing, gone);
  }

  /** The decimal form of an id has no `_`, so the first `_` of a manifest name ends its id. */
  lemma NoUnderscore(appid: int)
    ensures '_' !in Decimal.IntToString(appid)
  {
    var s := Decimal.IntToString(appid);
    forall i | 0 <= i < |s| ensures s[i] != '_' {
      assert Decimal.IsDigit(s[i]) || s[i] == '-';
    }
  }

  /** A name that starts with `{id}_` for an id free of `_` has its first `_` right after the id. */
  lemma PrefixEndsAtUnderscore(a: string, name: string)
    requires '_' !in a && StartsWith(name, a + "_")
    ensures FirstIndexOf(name, '_') == |a|
  {
    assert name[|a|] == (a + "_")[|a|] == '_';
    forall j | 0 <= j < |a| ensures name[j] != '_' {
      assert name[j] == (a + "_")[j] == a[j];
    }
  }

  lemma PrefixesMeet(a: string, b: string, name: string)
    requires '_' !in a && '_' !in b
    requires StartsWith(name, a + "_") && StartsWith(name, b + "_")
    ensures a == b
  {
    PrefixEndsAtUnderscore(a, name);
    PrefixEndsAtUnderscore(b, name);
    assert a == name[..|a|] == b;
  }

  /** No file is selected for two different ids: removing one item never deletes another's files. */
  lemma SelectionIsPerItem(a: int, b: int, name: string)
    requires Selected(a, name) && Selected(b, name)
    ensures a == b
  {
    var sa, sb := Decimal.IntToString(a), Decimal.IntToString(b);
    if IsManifestOf(a, name) {
      ManifestsAreNotScripts(a, name);
      if IsManifestOf(b, name) {
        NoUnderscore(a);
        NoUnderscore(b);
        PrefixesMeet(sa, sb, name);
        Decimal.RenderInjective(a, b);
      }
    } else if IsManifestOf(b, name) {
      ManifestsAreNotScripts(b, name);
    } else {
      var la, lb := LuaName(a), LuaName(b);
      var da, db := DisabledName(a), DisabledName(b);
      assert la[|la| - 1] == 'a' && lb[|lb| - 1] == 'a';
      assert da[|da| - 1] == 'd' && db[|db| - 1] == 'd';
      if name == la && name == lb {
        assert sa == la[..|la| - 4] == lb[..|lb| - 4] == sb;
      } else if name == da && name == db {
        assert sa == da[..|da| - 13] == db[..|db| - 13] == sb;
      }
      Decimal.RenderInjective(a, b);
    }
  }

  /** Removing item 12 leaves `123_x.manifest` in place. */
  lemma RemovalKeepsLongerIds(listing: seq<string>)
    requires "123_x.manifest" in listing
    ensures "123_x.manifest" in RemoveViaLua(IntArg(12), listing).listing
  {
    assert Decimal.IntToString(123) == "123";
    assert IsManifestOf(123, "123_x.manifest");
    if Selected(12, "123_x.manifest") {
      SelectionIsPerItem(12, 123, "123_x.manifest");
    }
    RemovesExactlySelected(12, listing, "123_x.manifest");
  }

  /** An invalid id removes nothing. */
  lemma InvalidRemovalChangesNothing(arg: AppIdArg, listing: seq<string>)
    requires ParseAppId(arg).None?
    ensures RemoveViaLua(arg, listing) == Removal(InvalidAppId, listing)
  {
  }
}
