# manilua plugin backend — a Dafny model

This project models the Python backend of the manilua Millennium plugin. The
plugin downloads Lua scripts for a Steam app id from the manilua service and
installs them into Steam's `stplug-in` directory. It also removes them again,
and it keeps the user's API key.

The model covers these parts of the backend:

- **The per-app state store** (`StateStore`). It is a map from app id to a
  field dictionary. Every write merges into the entry, and a read returns a
  copy.
- **The download worker** (`Download`, with its properties in
  `DownloadProperties`). It is a pure function. Its inputs are what the
  transport, the clock, the archive reader and the file system report. Its
  output is the sequence of state updates it writes and the disk it leaves
  behind.
- **ZIP extraction** (`Archive`). It selects the entries, chooses where
  each one goes, and records every file it installs.
- **Intake and removal** (`Manilua`). This covers `add_via_lua`,
  `_check_availability_and_download` and `remove_via_lua`.
- **The HTTP client** (`HttpClient`). This covers the header cache, the
  `Authorization` header, how `get`/`post` shape their results, and the
  lazily created connection. It also covers the process-wide client.
- **`APIManager`** (`ApiManager`).
- **The `main.py` entry points** (`PluginMain`). These are the
  success/error replies, `GetPluginDir`, loading and checking the key,
  `SetAPIKey`, `GetAPIKeyStatus` and the key guard of `addViamanilua`.

Supporting modules:

- `Wrappers` provides `Option`.
- `Text` provides the string predicates, ASCII `lower` and Python `strip`.
- `Decimal` provides `str(int)` and `int(str)`.
- `Paths` provides `posixpath` `basename`, `dirname`, `join` and `splitext`.
- `Values` provides the JSON-like field values.
- `Files` models the disk as a map from path to bytes. A set of denied paths
  stands for the writes that raise, each with the error it raises.

Several things outside the code become parameters:

- The `config` constants: the progress interval and the API-key prefix.
- The clock: each chunk carries the time read after it was written.
- `get_stplug_in_path()`: the target directory.
- The network: a `Transport` value.
- What `zipfile` makes of the downloaded file: a `Payload` value.
- Whether `httpx` is importable.
- What Steam verification provides.

## Model

| member | source | states |
|---|---|---|
| StateStore.ReadAfterWrite | backend/manilua.py:36-44 | A read after `_set_download_state` gives the earlier fields overridden by the update. Every other app id reads as before. |
| StateStore.WriteAllMerges | backend/manilua.py:36-40 | A run of writes leaves the entry equal to the earlier fields merged with every update in order. |
| StateStore.LastUpdateWins | backend/manilua.py:36-40 | A field holds the value of the last update that set it. |
| StateStore.UntouchedFieldKept | backend/manilua.py:36-40 | An update without a field leaves that field's value unchanged. |
| StateStore.DownloadStatus | backend/manilua.py:46-48 | `get_download_status` always reports success. Its `state` is the stored entry, or an empty one for an unknown app. |
| Decimal.ParseRendered | backend/manilua.py:290-293 | `int(str(n)) == n` for every integer, so an app id given as text parses back to itself. |
| Manilua.ParseAppIdOfText | backend/manilua.py:290-293 | An integer, and the decimal text of one, are both accepted as that app id. |
| Manilua.AddViaLua | backend/manilua.py:289-324 | An invalid id gives `Invalid appid` and changes nothing. A valid one gives success, writes the `queued` entry and starts a job for that id. The job uses the given endpoints, or `['unified']` when none are given. |
| Manilua.IntakeQueues | backend/manilua.py:295-299 | After intake the item is `queued` with zero counts, and every other item is unchanged. |
| Manilua.InvalidIntakeChangesNothing | backend/manilua.py:290-293 | An id that does not parse leaves the store untouched through the whole lifecycle. |
| Manilua.CheckAvailabilityAndDownload | backend/manilua.py:326-327 | Whatever endpoints are passed, the run starts `checking` on the `unified` endpoint and writes at least one more update after it. Afterwards the item's own scratch archive `temp_{appid}.zip` is not on disk. |
| Manilua.EndpointsIgnored | backend/manilua.py:326-327 | Two jobs for the same id give the same run, whatever endpoint lists they carry. |
| Manilua.CheckNotFoundNamesItem | backend/manilua.py:85-86 | When the server answers 404, the item ends `failed` with `Download failed: Game {appid} not found`, where `{appid}` is the id the job was queued with. |
| Manilua.LifecycleEndsTerminal | backend/manilua.py:289-327 | Intake followed by the worker leaves the item in `done`, `failed` or `auth_failed`. No other item changes. |
| Manilua.RemovesExactlySelected | backend/manilua.py:336-356 | A file is removed exactly when it is `{id}.lua`, `{id}.lua.disabled` or an `{id}_*.manifest`. Everything else stays in the directory. |
| Manilua.RemovalOrder | backend/manilua.py:336-356 | `removed_files` lists the script, then the disabled script, then the manifests in listing order. |
| Manilua.RemovalSucceeds | backend/manilua.py:358-360 | When something was removed, the reply is a success with `Removed {n} files`. |
| Manilua.NothingFound | backend/manilua.py:361-362 | When nothing matches, the reply is `No files found for app {id}` and the directory is unchanged. |
| Manilua.SelectionIsPerItem | backend/manilua.py:339-352 | No file is selected for two different app ids. |
| Manilua.RemovalKeepsLongerIds | backend/manilua.py:352 | Removing app 12 keeps `123_x.manifest`, because the underscore ends the id. |
| Manilua.InvalidRemovalChangesNothing | backend/manilua.py:330-333 | An id that does not parse gives `Invalid appid` and removes nothing. |
| ApiManager.SetThenGet | backend/api_manager.py:7-15 | A new manager has no key. `get_api_key` returns the last key set, and the backend path is kept. |
| Archive.SelectPrefersLua | backend/manilua.py:227-231 | An entry is selected exactly when it is a `.lua` name in any case, or when the archive holds no `.lua` name at all. |
| Archive.DestinationName | backend/manilua.py:244-252 | A script goes to the target under its own base name. Any other file goes there as `{appid}{ext}`, or as `{appid}.txt` when it has no extension. |
| Archive.ExtractInOrder | backend/manilua.py:236-268 | `installed_files` is the destination of every entry that is written, in entry order and with repeats. Directory names, entries that fail to read and writes that raise are skipped. |
| Archive.ExtractInstalls | backend/manilua.py:236-268 | A path is listed exactly when some installable entry is written to it. |
| Archive.ExtractWrites | backend/manilua.py:253-266 | Every listed path is on disk afterwards. Any other path is present exactly when it was before, with the same content. A write that fails after its file was opened is not modelled (see `Archive.Extract` under Left out). |
| Archive.NothingInstallable | backend/manilua.py:236-274 | With no installable entry, nothing is listed. That is the case that raises `No files were successfully extracted`. |
| Archive.SharedBasenameListedTwice | backend/manilua.py:227-268 | Two scripts sharing a base name, plus a readme, list the same destination twice and skip the readme. |
| Archive.LuaBasenamesCollide | backend/manilua.py:247-249 | Scripts with the same base name are written to the same file. |
| Archive.OtherExtensionsCollide | backend/manilua.py:250-252 | Non-script entries with the same extension are written to the same `{appid}{ext}` file. |
| Download.CoalesceCounts | backend/manilua.py:113-133 | Progress counts strictly increase. Each lies above the starting count and within the bytes read. |
| Download.CoalescePacing | backend/manilua.py:126-133 | A progress write happens only when none happened yet, or at least the interval after the previous one. |
| Download.CoalesceFirst | backend/manilua.py:126 | The first non-empty chunk is always reported, with its own length. |
| Download.CoalesceTotals | backend/manilua.py:113-132 | Every reported count is the running `bytes_read` at some non-empty chunk, stamped with that chunk's time. |
| Download.CoalesceReportsDue | backend/manilua.py:126-133 | A non-empty chunk that comes the interval after the last write, and after every earlier chunk, is reported with its running total. |
| Download.CoalesceIsDue | backend/manilua.py:113-133 | The progress writes are exactly those of the chunk-by-chunk rule, in order. Chunk `j` is written when it is non-empty and either nothing was written before it and `last_state_update_ts` is 0.0 or the interval behind, or the interval has passed since the last write before it. Each write carries the running `bytes_read` and chunk `j`'s time. |
| Download.CoalesceReportsWhenDue | backend/manilua.py:126-133 | Every chunk that is due under that rule is reported with its running total and its time. |
| Download.CoalesceReportsIffDue | backend/manilua.py:126-133 | When the chunks' clock readings strictly increase, chunk `j`'s report appears exactly when chunk `j` is due. |
| Download.DueReportsFrom | backend/manilua.py:126-133 | Every write under the rule comes from a due chunk and carries that chunk's running total and time. |
| Download.Coalesce | backend/manilua.py:113-117 | The final count is the starting count plus all bytes received. There is at most one report per chunk. |
| DownloadProperties.WorkerTrail | backend/manilua.py:50-206 | The statuses form the worker's state machine. It starts `checking`, then writes `downloading` updates, then optionally `processing`, `extracting` and `installing`, and ends with one terminal status. `done` comes only after `installing`. |
| DownloadProperties.TrailEndsTerminal | backend/manilua.py:177-206 | Such a trail starts at `checking`, ends terminal, and passes through no terminal status before the end. |
| DownloadProperties.FinalStatusIsLast | backend/manilua.py:177-206 | The item ends terminal. It ends `done` exactly when nothing raised. |
| DownloadProperties.FailureState | backend/manilua.py:183-206 | A raised message that mentions `authentication failed` ends in `auth_failed` with the fixed message and `requiresNewKey`. Any other message ends in `failed` with `Download failed: ` and the message. |
| DownloadProperties.UnauthorizedEndsAuthFailed | backend/manilua.py:83-85 | A 401 response ends in `auth_failed`. |
| DownloadProperties.NotFoundFails | backend/manilua.py:86-87 | A 404 response ends in `failed` with `Game {id} not found`. |
| DownloadProperties.OtherStatusFails | backend/manilua.py:88-89 | Any other error status ends in `failed` with `HTTP {code}: {reason}`, unless the reason itself mentions a failed authentication. |
| DownloadProperties.JsonReplyFails | backend/manilua.py:97-104 | A JSON body ends in `auth_failed` when it mentions authentication, and otherwise in `failed` with `Server error: ` and the body. |
| DownloadProperties.ScratchDeniedFails | backend/manilua.py:112 | A scratch file that cannot be opened raises the system's error. When that error does not mention `authentication failed`, the run ends `failed` with `Download failed: ` and that error. |
| DownloadProperties.EmptyDownloadFails | backend/manilua.py:135-136 | A body of zero bytes ends in `failed` with `Empty download from endpoint`. |
| DownloadProperties.BadZipFails | backend/manilua.py:282-284 | An archive that `zipfile` rejects ends in `failed` with `Invalid ZIP file: ` and the reader's message, when that message does not mention `authentication failed`. |
| DownloadProperties.NothingExtractedFails | backend/manilua.py:270-274 | An archive none of whose selected entries can be written ends in `failed` with `No files were successfully extracted from ZIP`. |
| DownloadProperties.ProcessingTotals | backend/manilua.py:135-143 | `processing` comes only after a non-empty download. It carries the bytes received, and as total the Content-Length, or the bytes received when that header gave 0. |
| DownloadProperties.ScratchRemoved | backend/manilua.py:150-206 | The scratch file never survives the worker, whatever the outcome. |
| DownloadProperties.DoneRecordsInstalledFiles | backend/manilua.py:150-181 | `done` follows a non-empty `installedFiles`, and every file listed is on disk. |
| HttpClient.ComputeHeaders | backend/http_client.py:39-55 | The headers are the base headers overridden by the verification headers. When verification is missing or raises, the fallback `User-Agent` is used instead. |
| HttpClient.HeadersComputedOnce | backend/http_client.py:39-57 | Once computed, the cached headers are returned unchanged, whatever verification says later. |
| HttpClient.ConnectionCreatedOnce | backend/http_client.py:59-74 | A second `_ensure_client` returns the same connection and creates none. |
| HttpClient.CloseIdempotent | backend/http_client.py:215-224 | Closing twice is the same as closing once. |
| HttpClient.ReopenIsFresh | backend/http_client.py:59-74 | After `close`, the next `_ensure_client` opens a new connection. |
| HttpClient.Shape | backend/http_client.py:88-115 | Success holds exactly for a 2xx response. `data` is then the payload, and `status_code` is the status of any response. The error strings are `HTTP {code}: {text}`, `Request error: {m}` and `Unexpected error: {m}`. |
| HttpClient.ShapeTellsOutcome | backend/http_client.py:88-115 | Equal results come from the same kind of outcome: a response, a request error or an unexpected error. |
| HttpClient.GetLeavesCache | backend/http_client.py:76-86 | `get` never changes the cached headers. It sends them with `Authorization` exactly when the token is non-empty. |
| HttpClient.StreamGetMatchesGet | backend/http_client.py:202-213 | `stream_get` sends exactly the headers `get` sends, leaves the same client behind, and never changes headers already cached. |
| HttpClient.Post | backend/http_client.py:158-200 | As written, `post` shapes its result like `get`. It sends the cached headers, plus `Authorization: Bearer {token}` for a non-empty token, plus `Content-Type: application/json` only when there is data. The client keeps the cache unchanged, except that a tokenless `post` with data stores the sent headers as the new cache. Without `httpx` nothing is sent. |
| HttpClient.PostLeaksContentType | backend/http_client.py:160-168 | As written, a `post` with data and no token writes `Content-Type` into the shared cache, and a later `get` sends it. |
| HttpClient.IsolatedPostKeepsGet | backend/http_client.py:160-168 | With the header added to a copy, a `post` never changes what a later `get` sends. |
| HttpClient.PostIsolated | backend/http_client.py:158-200 | The corrected `post` sends the cached headers with `Authorization` and `Content-Type` added to a copy, and leaves the cache as `_get_cached_headers` left it. |
| HttpClient.GlobalSingleton | backend/http_client.py:227-237 | `get_global_client` returns the same client until `close_global_client`, and a new one after it. |
| PluginMain.SuccessResponse | backend/main.py:17-18 | The reply holds `success: true` and every keyword field. |
| PluginMain.ErrorResponse | backend/main.py:20-21 | The reply holds `success: false`, the error and every keyword field. |
| PluginMain.PluginDirOfMain | backend/main.py:23-38 | For `{dir}/backend/main.py`, and for the doubled `{dir}/backend/main.py/main.py`, the plugin directory is `{dir}`. |
| PluginMain.InitLoadsStrippedKey | backend/main.py:41-65 | A key file's content is loaded stripped. It reaches the API manager and the manager only when it is not blank. |
| PluginMain.InitWithoutKey | backend/main.py:41-65 | Without a readable key file, no key is set anywhere. |
| PluginMain.HasApiKeyIff | backend/main.py:79-80 | There is a key exactly when one is stored and is not all whitespace. |
| PluginMain.KeyArgumentChoice | backend/main.py:167-173 | The key is the first positional argument, else the `api_key` keyword, else the only keyword. |
| PluginMain.SetAPIKeyRejects | backend/main.py:175-179 | A missing, non-string or empty key gives `Invalid API key`. A key without the prefix gives `Invalid API key format (must start with {prefix})`. Nothing changes in either case. |
| PluginMain.SetAPIKeyAccepts | backend/main.py:181-185 | A key with the prefix is set in both managers and replies `API key configured successfully`. The plugin keeps it only when it was saved. |
| PluginMain.MaskShape | backend/main.py:196 | A long key shows its first 12 and last 4 characters around `...`. A short one shows at most its first 8. |
| PluginMain.GetAPIKeyStatus | backend/main.py:190-210 | The reply is always a success. `hasKey` says whether a key is set. `maskedKey` is present exactly then, and it is the masked form of the key, never the key itself. |
| PluginMain.AddWithoutKey | backend/main.py:138-139 | Without a key, `addViamanilua` asks for a new key and changes nothing. |
| PluginMain.AddWithKey | backend/main.py:141-143 | With a key and a valid id, the item is queued for the `unified` endpoint. |
| PluginMain.SetKeyThenAdd | backend/main.py:136-185 | A key accepted and saved by `SetAPIKey` unlocks downloads, when the prefix is not blank. |

## Left out

**Error paths not modelled:**

- Manilua.RemoveViaLua: the outer handler is not modelled. It turns an `os.remove` or `get_stplug_in_path` failure into `{'success': False, 'error': str(e)}` (manilua.py:364-366), possibly after some files were already removed. In the model every selected file is removed.
- Files.Delete: a removal that raises is not modelled, so deleting a path never fails. This affects the scratch cleanup at manilua.py:155-156 and 165, and at 188-191, where a failure is only logged.
- Download.JsonMessage: the model takes the JSON error body as already-decoded text. A body that is not valid UTF-8, which makes `decode('utf-8')` raise at manilua.py:99, is not modelled.
- Archive.Extract: a write that raises after its destination was opened, such as on a full disk, is not modelled. `open(dest_file, 'w')` and `open(dest_file, 'wb')` truncate first (manilua.py:255-262). The handler at manilua.py:269-271 then skips the entry, leaving a truncated file that is not in the list. In the model a refused write leaves the disk unchanged, so the frame in `Archive.ExtractWrites` holds only for writes that fail before opening.
- Download.Stream: only opening the scratch file can fail. A write that raises after the file is open, such as on a full disk, is not modelled. A broken stream is modelled as a fault after the last chunk received, which is what `iter_bytes` delivers before it raises.

**Platform and string semantics:**

- Paths.Join: follows `posixpath`. Windows `ntpath` joins with `\` and treats drive letters differently, which would change the destination paths.
- Paths.Basename: follows `posixpath`. Windows `ntpath` also splits at `\`, so a ZIP entry named with backslashes keeps them in the model.
- Paths.Dirname: follows `posixpath`, so a Windows path without `/` has an empty directory.
- Manilua.RemoveViaLua: file names are compared case-sensitively. On case-insensitive file systems, such as Windows and default macOS volumes, `os.path.exists` at manilua.py:340 and 346 also matches `12.LUA` or `12.Lua.disabled`, which are then removed. The `listdir` filter at manilua.py:352 stays case-sensitive there too.
- PluginMain.GetPluginDir: recognises the `\main.py` suffixes as `main.py` does, but takes directories with `posixpath`. For `C:\p\backend\main.py` it gives `""`, where Windows gives `C:\p`.
- Decimal.ParseInt: accepts optional surrounding whitespace, an optional sign and ASCII digits. Python's `int()` also accepts underscores between digits (`"1_000"`) and non-ASCII Unicode digits.
- Manilua.ParseAppId: `AppIdArg` has only integer, text and `None` cases. Python's `int()` also accepts a float, which it truncates (`int(3.7) == 3`), and a bool (`int(True) == 1`).
- Text.Lower: maps only ASCII letters, unlike Python's `str.lower`. The model uses it only to search for the needles `.lua`, `authentication`, `authentication failed` and `application/json`, which are ASCII and lower case. Only two non-ASCII characters lower to ASCII letters. The Kelvin sign lowers to `k`, and no needle has a `k`. `'İ'` lowers to `i` followed by a combining dot, and in every needle an `i` is followed by a letter. So each needle occurs in Python's lowered text exactly when it occurs in the model's.

**Branches that cannot be reached, and behaviour outside the model:**

- The "Setup failed" branch (manilua.py:60-69) and the outer "Backend error" branch (manilua.py:208-213) are not modelled. `get_global_client()` always returns a client object, and the code between them does not raise.
- The "Availability check crashed" wrapper (manilua.py:306-313) is not modelled. The worker catches everything it raises.
- The `'No response'` alternative in the HTTP error text is not modelled. An `HTTPStatusError` always carries a response.
- The `HTTPStatusError` with status 401 alternative in the worker's failure test (manilua.py:194) is not modelled. `stream_get` (http_client.py:202-213) never calls `raise_for_status`, so no such error reaches the worker, and only the message decides between `auth_failed` and `failed`.
- Threads and the lock are not modelled. The state store is a value, and each operation applies atomically, as the lock makes it.
- Logging is not modelled.
- JSON serialisation of the replies (`json.dumps`) is not modelled. Replies are field maps.
- `get_binary` has no member of its own. `HttpClient.Get` covers it, because it builds the same headers and shapes the result the same way, differing only in what the payload holds.
- The UTF-8 re-encoding of script text (manilua.py:253-259) is not modelled. The fallback writes the raw bytes, and so does the model in both cases. On POSIX, text mode writes the same bytes for valid UTF-8. On Windows it writes each `\n` as `\r\n`, which the model does not reproduce, in line with the `Paths` lines above.
- Steam verification is not modelled. Its headers are a parameter.
- These `main.py` functions are not modelled:
  - `hasluaForApp`, `GetLocalLibrary`, `GetStatus` and `removeViamanilua` only call code outside the core, or pass a result through.
  - `_inject_webkit_files`, `_load` and `_unload` talk to Millennium.
  - `get_plugin` and the `Logger` class also talk to Millennium.
- The `config` module is not part of this model. Its constants are parameters: the progress interval, the key prefix and the user agent.
- `steam_utils` is not part of this model. The target directory and the directory listing are parameters.

## Findings

| source | as written | input that shows it | evidently intended | confidence | as-written member | corrected member |
|---|---|---|---|---|---|---|
| backend/http_client.py:160-168 | `post` copies the cached headers only when a token is given. It then sets `Content-Type` on whatever dict it holds. | A `post` with a non-empty body and no token. Every later `get` and `stream_get` then sends `Content-Type: application/json`. | Set `Content-Type` on a copy and leave the shared cache as `_get_cached_headers` built it. | not executed | HttpClient.PostLeaksContentType | HttpClient.IsolatedPostKeepsGet |
