/**
 Installing the entries of a downloaded archive (`_extract_and_add_lua_from_zip`):
 which entries are selected and where each one is written.
 */
module Archive {
  import opened Wrappers
  import opened Text
  import opened Files
  import Decimal
  import Paths

  /** An archive entry: its name and its bytes, `None` when reading it fails. */
  datatype Entry = Entry(name: string, content: Option<Bytes>)

  /** A script entry: the name ends in `.lua`, ignoring case. */
  predicate IsLuaName(name: string)
  {
    EndsWith(Lower(name), ".lua")
  }

  predicate IsDirectoryName(name: string)
  {
    EndsWith(name, "/")
  }

  function LuaEntries(entries: seq<Entry>): (r: seq<Entry>)
    ensures |r| <= |entries|
    ensures forall e :: e in r <==> e in entries && IsLuaName(e.name)
    decreases |entries|
  {
    if |entries| == 0 then []
    else (if IsLuaName(entries[0].name) then [entries[0]] else []) + LuaEntries(entries[1..])
  }

  /** The `.lua` entries when there are any, otherwise every entry. */
  function Select(entries: seq<Entry>): seq<Entry>
  {
    var lua := LuaEntries(entries);
    if |lua| == 0 then entries else lua
  }

  /** Where an entry is written: scripts keep their base name, anything else is renamed after the item. */
  function Destination(appid: int, target: string, name: string): string
  {
    if IsLuaName(name) then Paths.Join(target, Paths.Basename(name))
    else
      var ext := Paths.Extension(name);
      Paths.Join(target, Decimal.IntToString(appid) + (if ext == "" then ".txt" else ext))
  }

  /** An entry that ends up written: not a directory, readable, and its destination accepts writes. */
  predicate Installable(appid: int, target: string, e: Entry, denied: map<string, string>)
  {
    !IsDirectoryName(e.name) && e.content.Some? && Destination(appid, target, e.name) !in denied
  }

  datatype Extraction = Extraction(installed: seq<string>, disk: Disk)

  /**
   Writes the given entries in order, skipping directories and entries that
   cannot be read or written; `installed` lists every successful write, so a
   path written twice is listed twice.
   */
  function Extract(appid: int, target: string, entries: seq<Entry>, disk: Disk): (x: Extraction)
    ensures |x.installed| <= |entries|
    ensures x.disk.denied == disk.denied
    decreases |entries|
  {
    if |entries| == 0 then Extraction([], disk)
    else
      var e := entries[0];
      var dest := Destination(appid, target, e.name);
      if !Installable(appid, target, e, disk.denied) then Extract(appid, target, entries[1..], disk)
      else
        var rest := Extract(appid, target, entries[1..], Put(disk, dest, e.content.value));
        Extraction([dest] + rest.installed, rest.disk)
  }

  /** The destinations of the installable entries, in entry order and with repeats. */
  function Destinations(appid: int, target: string, entries: seq<Entry>, denied: map<string, string>): seq<string>
    decreases |entries|
  {
    if |entries| == 0 then []
    else
      (if Installable(appid, target, entries[0], denied) then [Destination(appid, target, entries[0].name)] else [])
      + Destinations(appid, target, entries[1..], denied)
  }

  /**
   The installed list is the destination of every installable entry, one per
   successful write in entry order: an entry that overwrites an earlier one's
   file is listed again.
   */
  lemma {:induction false} ExtractInOrder(appid: int, target: string, entries: seq<Entry>, disk: Disk)
    ensures Extract(appid, target, entries, disk).installed == Destinations(appid, target, entries, disk.denied)
    decreases |entries|
  {
    if |entries| > 0 {
      var e := entries[0];
      if !Installable(appid, target, e, disk.denied) {
        ExtractInOrder(appid, target, entries[1..], disk);
      } else {
        ExtractInOrder(appid, target, entries[1..], Put(disk, Destination(appid, target, e.name), e.content.value));
      }
    }
  }

  /** `p` is where some installable entry is written. */
  predicate Written(appid: int, target: string, entries: seq<Entry>, denied: map<string, string>, p: string)
  {
    exists i :: 0 <= i < |entries| && Installable(appid, target, entries[i], denied)
                && Destination(appid, target, entries[i].name) == p
  }

  lemma {:induction false} DestinationsWritten(appid: int, target: string, entries: seq<Entry>, denied: map<string, string>, p: string)
    ensures p in Destinations(appid, target, entries, denied) <==> Written(appid, target, entries, denied, p)
    decreases |entries|
  {
    if |entries| > 0 {
      DestinationsWritten(appid, target, entries[1..], denied, p);
      if Written(appid, target, entries, denied, p) {
        var i :| 0 <= i < |entries| && Installable(appid, target, entries[i], denied)
                 && Destination(appid, target, entries[i].name) == p;
        if i > 0 {
          assert entries[1..][i - 1] == entries[i];
        }
      }
      if Written(appid, target, entries[1..], denied, p) {
        var i :| 0 <= i < |entries| - 1 && Installable(appid, target, entries[1..][i], denied)
                 && Destination(appid, target, entries[1..][i].name) == p;
        assert entries[i + 1] == entries[1..][i];
      }
    }
  }

  /** The installed list holds exactly the destinations of the installable entries. */
  lemma ExtractInstalls(appid: int, target: string, entries: seq<Entry>, disk: Disk, p: string)
    ensures p in Extract(appid, target, entries, disk).installed <==> Written(appid, target, entries, disk.denied, p)
  {
    hide Extract, Written;
    ExtractInOrder(appid, target, entries, disk);
    DestinationsWritten(appid, target, entries, disk.denied, p);
  }

  /** Nothing is installed when no entry is installable. */
  lemma {:induction false} NothingInstallable(appid: int, target: string, entries: seq<Entry>, disk: Disk)
    requires forall e :: e in entries ==> !Installable(appid, target, e, disk.denied)
    ensures Extract(appid, target, entries, disk).installed == []
    decreases |entries|
  {
    if |entries| > 0 {
      assert entries[0] in entries;
      NothingInstallable(appid, target, entries[1..], disk);
    }
  }

  /**
   Every installed path is on the disk afterwards; any other path is present
   exactly when it was before, with the same content.
   */
  lemma {:induction false} ExtractWrites(appid: int, target: string, entries: seq<Entry>, disk: Disk, p: string)
    ensures var x := Extract(appid, target, entries, disk);
      && (p in x.installed ==> p in x.disk.files)
      && (p !in x.installed ==> (p in x.disk.files <==> p in disk.files))
      && (p !in x.installed && p in disk.files ==> x.disk.files[p] == disk.files[p])
    decreases |entries|
  {
    if |entries| > 0 {
      var e := entries[0];
      var dest := Destination(appid, target, e.name);
      if !Installable(appid, target, e, disk.denied) {
        ExtractWrites(appid, target, entries[1..], disk, p);
      } else {
        ExtractWrites(appid, target, entries[1..], Put(disk, dest, e.content.value), p);
      }
    }
  }

  lemma SelectPrefersLua(entries: seq<Entry>, e: Entry)
    ensures e in Select(entries) <==>
      e in entries && (IsLuaName(e.name) || forall x :: x in entries ==> !IsLuaName(x.name))
  {
    var lua := LuaEntries(entries);
    if |lua| > 0 {
      assert lua[0] in lua;
    }
  }

  /**
   Two readable scripts sharing a base name, next to a file that is not a
   script, install two files: the same destination twice, the other file
   being left out because scripts were found.
   */
  lemma SharedBasenameListedTwice(appid: int, target: string, a: string, b: string, other: string, data: Bytes, disk: Disk)
    requires IsLuaName(a) && IsLuaName(b) && !IsLuaName(other) && Paths.Basename(a) == Paths.Basename(b)
    requires Destination(appid, target, a) !in disk.denied
    ensures var entries := [Entry(a, Some(data)), Entry(b, Some(data)), Entry(other, Some(data))];
      Extract(appid, target, Select(entries), disk).installed == [Destination(appid, target, a), Destination(appid, target, a)]
  {
    var ea, eb, eo := Entry(a, Some(data)), Entry(b, Some(data)), Entry(other, Some(data));
    hide Extract, Select, Destination;
    ScriptsSelected(ea, eb, eo);
    ExtractInOrder(appid, target, [ea, eb], disk);
    LuaBasenamesCollide(appid, target, a, b);
    ScriptInstallable(appid, target, ea, disk.denied);
    ScriptInstallable(appid, target, eb, disk.denied);
    TwoDestinations(appid, target, ea, eb, disk.denied);
  }

  lemma ScriptsSelected(ea: Entry, eb: Entry, eo: Entry)
    requires IsLuaName(ea.name) && IsLuaName(eb.name) && !IsLuaName(eo.name)
    ensures Select([ea, eb, eo]) == [ea, eb]
  {
    var entries := [ea, eb, eo];
    assert entries[1..] == [eb, eo];
    assert entries[1..][1..] == [eo];
    assert LuaEntries([eo]) == [];
    assert LuaEntries([eb, eo]) == [eb] + LuaEntries([eo]);
    assert LuaEntries(entries) == [ea] + LuaEntries([eb, eo]);
  }

  /** A readable script whose destination accepts writes is installed: its name cannot end in `/`. */
  lemma ScriptInstallable(appid: int, target: string, e: Entry, denied: map<string, string>)
    requires IsLuaName(e.name) && e.content.Some? && Destination(appid, target, e.name) !in denied
    ensures Installable(appid, target, e, denied)
  {
    LuaBasenameNonEmpty(e.name);
  }

  lemma TwoDestinations(appid: int, target: string, ea: Entry, eb: Entry, denied: map<string, string>)
    requires Installable(appid, target, ea, denied) && Installable(appid, target, eb, denied)
    ensures Destinations(appid, target, [ea, eb], denied)
      == [Destination(appid, target, ea.name), Destination(appid, target, eb.name)]
  {
    hide Installable, Destination;
    assert [ea, eb][1..] == [eb];
    assert [eb][1..] == [];
    assert Destinations(appid, target, [eb], denied) == [Destination(appid, target, eb.name)];
  }

  /** Script entries that share a base name collide on one destination. */
  lemma LuaBasenamesCollide(appid: int, target: string, a: string, b: string)
    requires IsLuaName(a) && IsLuaName(b) && Paths.Basename(a) == Paths.Basename(b)
    ensures Destination(appid, target, a) == Destination(appid, target, b)
  {
  }

  /** Other entries that share an extension collide on one destination. */
  lemma OtherExtensionsCollide(appid: int, target: string, a: string, b: string)
    requires !IsLuaName(a) && !IsLuaName(b) && Paths.Extension(a) == Paths.Extension(b)
    ensures Destination(appid, target, a) == Destination(appid, target, b)
  {
  }

  /** A `.lua` name ends in `a` or `A`, so its base name is not empty and ends in that letter too. */
  lemma LuaBasenameNonEmpty(name: string)
    requires IsLuaName(name)
    ensures |Paths.Basename(name)| > 0
    ensures LowerChar(name[|name| - 1]) == 'a'
    ensures LowerChar(Paths.Basename(name)[|Paths.Basename(name)| - 1]) == 'a'
  {
    var l := Lower(name);
    assert l[|l| - 4..] == ".lua";
    assert l[|l| - 1] == 'a';
    var b := Paths.Basename(name);
    assert b == name[Paths.LastIndexOf(name, '/') + 1..];
  }

  /**
   The file name of a destination: the entry's own base name for scripts,
   `{appid}{ext}` (`.txt` when there is no extension) for anything else.
   */
  lemma DestinationName(appid: int, target: string, name: string)
    ensures IsLuaName(name) ==>
      Paths.Basename(Destination(appid, target, name)) == Paths.Basename(name)
    ensures !IsLuaName(name) ==>
      var ext := Paths.Extension(name);
      Paths.Basename(Destination(appid, target, name))
        == Decimal.IntToString(appid) + (if ext == "" then ".txt" else ext)
  {
    if IsLuaName(name) {
      LuaBasenameNonEmpty(name);
      Paths.BasenameOfJoin(target, Paths.Basename(name));
    } else {
      var ext := Paths.Extension(name);
      Paths.ExtensionShape(name);
      var file := Decimal.IntToString(appid) + (if ext == "" then ".txt" else ext);
      assert Paths.NoSlash(file) by {
        forall i | 0 <= i < |file| ensures file[i] != '/' {
          var digits := Decimal.IntToString(appid);
          if i >= |digits| {
            var tail := if ext == "" then ".txt" else ext;
            assert file[i] == tail[i - |digits|];
          }
        }
      }
      Paths.BasenameOfJoin(target, file);
    }
  }
}
