/**
 What the download worker guarantees: the status trail it writes, how each
 failure is classified, the totals it reports and the files it leaves.
 */
module DownloadProperties {
  import opened Wrappers
  import opened Text
  import opened Values
  import opened Files
  import opened StateStore
  import opened Download
  import Decimal
  import Paths
  import Archive

  function Repeat(s: string, n: nat): seq<string>
  {
    seq(n, _ => s)
  }

  predicate Terminal(status: string)
  {
    status == "done" || status == "failed" || status == "auth_failed"
  }

  /** The statuses an installation moves through, when it succeeds (`ok`) and when it raises. */
  predicate InstallTail(ok: bool, t: seq<string>)
  {
    if ok then t == ["installing"] || t == ["extracting", "installing"]
    else t == [] || t == ["extracting"] || t == ["extracting", "installing"]
  }

  /** The statuses after the `downloading` writes: nothing, or `processing` and an installation. */
  predicate StreamTail(ok: bool, t: seq<string>)
  {
    if ok then t == ["processing", "installing"] || t == ["processing", "extracting", "installing"]
    else
      || t == [] || t == ["processing"] || t == ["processing", "extracting"]
      || t == ["processing", "extracting", "installing"]
  }

  /**
   How a trail may end after `checking` and `n` `downloading` writes: `done`
   only after processing and installing (with or without extracting), a
   failure at any point, and no `processing` without a download.
   */
  predicate TrailEnd(n: nat, tail: seq<string>, final: string)
  {
    if final == "done" then n >= 1 && StreamTail(true, tail)
    else (final == "failed" || final == "auth_failed") && (n == 0 ==> tail == []) && StreamTail(false, tail)
  }

  /** The status sequences of the worker's state machine. */
  ghost predicate IsTrail(ss: seq<string>)
  {
    exists n: nat, tail: seq<string>, final: string ::
      TrailEnd(n, tail, final) && ss == ["checking"] + Repeat("downloading", n) + tail + [final]
  }

  // ---------------------------------------------------------------------------
  // Status trail

  lemma {:induction false} ProgressStatuses(reports: seq<Report>, total: int, endpoint: string)
    ensures Statuses(ProgressUpdates(reports, total, endpoint)) == Repeat("downloading", |reports|)
    decreases |reports|
  {
    var us := ProgressUpdates(reports, total, endpoint);
    if |reports| > 0 {
      assert us[1..] == ProgressUpdates(reports[1..], total, endpoint);
      ProgressStatuses(reports[1..], total, endpoint);
      assert Statuses(us) == ["downloading"] + Repeat("downloading", |reports| - 1);
    }
  }

  lemma SingleStatus(u: Fields)
    ensures Statuses([u]) == StatusStep(u)
  {
    assert [u][1..] == [];
  }

  /** The streaming updates are all `downloading`, one more than the progress reports. */
  lemma StreamedStatuses(resp: Response, interval: real, endpoint: string)
    ensures Statuses(Streamed(resp, interval, endpoint))
      == Repeat("downloading", 1 + |Coalesce(resp.chunks, interval, 0, 0.0).reports|)
  {
    var total := ContentLength(resp.contentLength);
    StartThenProgress(total, Coalesce(resp.chunks, interval, 0, 0.0).reports, endpoint);
  }

  lemma StartThenProgress(total: int, reports: seq<Report>, endpoint: string)
    ensures Statuses([StartUpdate(total)] + ProgressUpdates(reports, total, endpoint))
      == Repeat("downloading", 1 + |reports|)
  {
    ProgressStatuses(reports, total, endpoint);
    StatusesConcat([StartUpdate(total)], ProgressUpdates(reports, total, endpoint));
    SingleStatus(StartUpdate(total));
  }

  lemma InstallStatuses(appid: int, scratch: string, env: Env, bytes: Bytes, disk: Disk) returns (t: seq<string>)
    ensures Statuses(Install(appid, scratch, env, bytes, disk).updates) == t
    ensures InstallTail(Install(appid, scratch, env, bytes, disk).error.None?, t)
  {
    match env.payload {
      case NotZip =>
        var dest := Paths.Join(env.targetDir, Decimal.IntToString(appid) + ".lua");
        SingleStatus(SingleFileUpdate(dest));
        t := if dest in disk.denied then [] else ["installing"];
      case BadZip(_) =>
        SingleStatus(StatusUpdate("extracting"));
        t := ["extracting"];
      case Zip(entries) =>
        var x := Archive.Extract(appid, env.targetDir, Archive.Select(entries), disk);
        ExtractionStatuses(x.installed);
        t := ["extracting", "installing"];
    }
  }

  /** Both shapes of the archive branch's updates move through `extracting` and `installing`. */
  lemma ExtractionStatuses(files: seq<string>)
    ensures Statuses([StatusUpdate("extracting"), StatusUpdate("installing")]) == ["extracting", "installing"]
    ensures |files| > 0 ==>
      Statuses([StatusUpdate("extracting"), StatusUpdate("installing"), ExtractedUpdate(files)])
        == ["extracting", "installing"]
  {
    var e := StatusUpdate("extracting");
    var s := StatusUpdate("installing");
    StatusesConcat([e], [s]);
    SingleStatus(e);
    SingleStatus(s);
    if |files| > 0 {
      var x := ExtractedUpdate(files);
      assert [e, s, x] == [e, s] + [x];
      StatusesConcat([e, s], [x]);
      SingleStatus(x);
    }
  }

  lemma InstalledTrail(appid: int, endpoint: string, env: Env, resp: Response)
    requires ScratchPath(env.backendPath, appid) !in env.disk.denied
    requires resp.fault.None? && |Received(resp.chunks)| != 0
    ensures var st := Stream(appid, endpoint, env, resp);
      var scratch := ScratchPath(env.backendPath, appid);
      var bytes := Received(resp.chunks);
      var i := Install(appid, scratch, env, bytes, Put(env.disk, scratch, bytes));
      && st.error == i.error
      && Statuses(st.updates) == Statuses(Streamed(resp, env.interval, endpoint)) + ["processing"] + Statuses(i.updates)
  {
    hide Stream, Install, Streamed, Statuses, ScratchPath, Received, Put, ContentLength;
    var streamed := Streamed(resp, env.interval, endpoint);
    var scratch := ScratchPath(env.backendPath, appid);
    var bytes := Received(resp.chunks);
    var i := Install(appid, scratch, env, bytes, Put(env.disk, scratch, bytes));
    var proc := ProcessingUpdate(|bytes|, ContentLength(resp.contentLength));
    StreamInstalls(appid, endpoint, env, resp);
    StatusesConcat(streamed + [proc], i.updates);
    StatusesConcat(streamed, [proc]);
    SingleStatus(proc);
  }

  /** After a complete, non-empty body the streaming stage writes `processing` and installs. */
  lemma StreamInstalls(appid: int, endpoint: string, env: Env, resp: Response)
    requires ScratchPath(env.backendPath, appid) !in env.disk.denied
    requires resp.fault.None? && |Received(resp.chunks)| != 0
    ensures var scratch := ScratchPath(env.backendPath, appid);
      var bytes := Received(resp.chunks);
      var i := Install(appid, scratch, env, bytes, Put(env.disk, scratch, bytes));
      Stream(appid, endpoint, env, resp)
        == Attempt(Streamed(resp, env.interval, endpoint) + [ProcessingUpdate(|bytes|, ContentLength(resp.contentLength))]
                   + i.updates, i.disk, i.error)
  {
    hide Install, Streamed, ScratchPath, Received, ProcessingUpdate;
  }

  /** The statuses of the streaming stage: at least one `downloading`, then what installing wrote. */
  lemma StreamTrail(appid: int, endpoint: string, env: Env, resp: Response) returns (n: nat, tail: seq<string>)
    ensures n >= 1
    ensures Statuses(Stream(appid, endpoint, env, resp).updates) == Repeat("downloading", n) + tail
    ensures StreamTail(Stream(appid, endpoint, env, resp).error.None?, tail)
  {
    if ScratchPath(env.backendPath, appid) in env.disk.denied {
      ScratchDenied(appid, endpoint, env, resp);
      n, tail := 1, [];
      return;
    }
    StreamedStatuses(resp, env.interval, endpoint);
    n := 1 + |Coalesce(resp.chunks, env.interval, 0, 0.0).reports|;
    if resp.fault.None? && |Received(resp.chunks)| != 0 {
      tail := InstalledTail(appid, endpoint, env, resp);
    } else {
      StreamStopped(appid, endpoint, env, resp);
      tail := [];
    }
  }

  /** A scratch file that cannot be written stops the run after one `downloading` update, with the system's error. */
  lemma ScratchDenied(appid: int, endpoint: string, env: Env, resp: Response)
    requires ScratchPath(env.backendPath, appid) in env.disk.denied
    ensures Stream(appid, endpoint, env, resp).updates == [StartUpdate(ContentLength(resp.contentLength))]
    ensures Statuses(Stream(appid, endpoint, env, resp).updates) == Repeat("downloading", 1)
    ensures Stream(appid, endpoint, env, resp).error == Some(env.disk.denied[ScratchPath(env.backendPath, appid)])
  {
    SingleStatus(StartUpdate(ContentLength(resp.contentLength)));
  }

  /** A broken or empty body stops after the streaming updates, with an error. */
  lemma StreamStopped(appid: int, endpoint: string, env: Env, resp: Response)
    requires ScratchPath(env.backendPath, appid) !in env.disk.denied
    requires resp.fault.Some? || |Received(resp.chunks)| == 0
    ensures Stream(appid, endpoint, env, resp).updates == Streamed(resp, env.interval, endpoint)
    ensures Stream(appid, endpoint, env, resp).error.Some?
  {
  }

  /** After a complete body: `processing`, then what the installation wrote. */
  lemma InstalledTail(appid: int, endpoint: string, env: Env, resp: Response) returns (tail: seq<string>)
    requires ScratchPath(env.backendPath, appid) !in env.disk.denied
    requires resp.fault.None? && |Received(resp.chunks)| != 0
    ensures Statuses(Stream(appid, endpoint, env, resp).updates)
      == Statuses(Streamed(resp, env.interval, endpoint)) + tail
    ensures StreamTail(Stream(appid, endpoint, env, resp).error.None?, tail)
  {
    var scratch := ScratchPath(env.backendPath, appid);
    var bytes := Received(resp.chunks);
    var written := Put(env.disk, scratch, bytes);
    InstalledTrail(appid, endpoint, env, resp);
    var t := InstallStatuses(appid, scratch, env, bytes, written);
    tail := ["processing"] + t;
    Regroup(Statuses(Streamed(resp, env.interval, endpoint)), ["processing"], t, []);
    ProcessingTail(Install(appid, scratch, env, bytes, written).error.None?, t);
  }

  lemma ProcessingTail(ok: bool, t: seq<string>)
    requires InstallTail(ok, t)
    ensures StreamTail(ok, ["processing"] + t)
  {
  }

  lemma TransferTrail(appid: int, endpoint: string, env: Env) returns (n: nat, tail: seq<string>)
    ensures Statuses(Transfer(appid, endpoint, env).updates) == Repeat("downloading", n) + tail
    ensures TrailEnd(n, tail, if Transfer(appid, endpoint, env).error.None? then "done" else "failed")
  {
    n, tail := 0, [];
    if env.transport.Opened? {
      var resp := env.transport.response;
      if IsSuccess(resp.status) && !IsJson(resp.contentType) {
        n, tail := StreamTrail(appid, endpoint, env, resp);
      }
    }
  }

  /**
   Every run of the worker writes `checking`, then zero or more `downloading`
   updates, then possibly `processing`/`extracting`/`installing`, and ends in
   exactly one terminal status; `done` comes only after `installing`.
   */
  lemma WorkerTrail(appid: int, endpoint: string, env: Env)
    ensures IsTrail(Statuses(Worker(appid, endpoint, env).updates))
  {
    var a := Transfer(appid, endpoint, env);
    var n, tail := TransferTrail(appid, endpoint, env);
    var final := ClosingStatus(endpoint, a.error);
    WorkerStatuses(appid, endpoint, env);
    Regroup(["checking"], Repeat("downloading", n), tail, [final]);
    assert TrailEnd(n, tail, final);
  }

  /** Regrouping a concatenation of four sequences. */
  lemma Regroup<T>(a: seq<T>, b: seq<T>, c: seq<T>, d: seq<T>)
    ensures a + (b + c) + d == a + b + c + d
    ensures a + (b + c) == a + b + c
  {
  }

  /** The status the closing update moves to. */
  lemma ClosingStatus(endpoint: string, error: Option<string>) returns (final: string)
    ensures StatusStep(Closing(endpoint, error)) == [final]
    ensures error.None? ==> final == "done"
    ensures error.Some? ==> final == "failed" || final == "auth_failed"
  {
    final := if error.None? then "done" else if IsAuthFailure(error.value) then "auth_failed" else "failed";
  }

  lemma WorkerStatuses(appid: int, endpoint: string, env: Env)
    ensures var a := Transfer(appid, endpoint, env);
      Statuses(Worker(appid, endpoint, env).updates)
        == ["checking"] + Statuses(a.updates) + StatusStep(Closing(endpoint, a.error))
  {
    var a := Transfer(appid, endpoint, env);
    var last := Closing(endpoint, a.error);
    StatusesConcat([CheckingUpdate(endpoint)] + a.updates, [last]);
    StatusesConcat([CheckingUpdate(endpoint)], a.updates);
    SingleStatus(CheckingUpdate(endpoint));
    SingleStatus(last);
  }

  /** A trail starts at `checking`, ends in a terminal status, and passes through no other terminal status. */
  lemma TrailEndsTerminal(ss: seq<string>)
    requires IsTrail(ss)
    ensures |ss| >= 2 && ss[0] == "checking" && Terminal(ss[|ss| - 1])
    ensures forall i :: 0 <= i < |ss| - 1 ==> !Terminal(ss[i])
  {
    var n: nat, tail: seq<string>, final: string :|
      TrailEnd(n, tail, final) && ss == ["checking"] + Repeat("downloading", n) + tail + [final];
    forall i | 0 <= i < |ss| - 1 ensures !Terminal(ss[i]) {
      if 1 <= i < 1 + n {
        assert ss[i] == Repeat("downloading", n)[i - 1];
      } else if i >= 1 + n {
        assert ss[i] == tail[i - 1 - n];
      }
    }
  }

  /** The item's state after the worker holds its terminal status. */
  lemma FinalStatusIsLast(appid: int, endpoint: string, env: Env, before: Fields)
    ensures var s := FinalState(appid, endpoint, env, before);
      "status" in s && s["status"].VStr? && Terminal(s["status"].s)
    ensures var s := FinalState(appid, endpoint, env, before);
      Has(s, "status", VStr("done")) <==> Transfer(appid, endpoint, env).error.None?
  {
    hide Transfer;
    var r := Worker(appid, endpoint, env);
    LastUpdateWins(before, r.updates, "status");
  }

  // ---------------------------------------------------------------------------
  // Failure classification

  /** The final state for an error `m`. */
  lemma FailureState(appid: int, endpoint: string, env: Env, before: Fields, m: string)
    requires Transfer(appid, endpoint, env).error == Some(m)
    ensures var s := FinalState(appid, endpoint, env, before);
      && (IsAuthFailure(m) ==>
            Has(s, "status", VStr("auth_failed")) && Has(s, "error", VStr(AuthFailedError))
            && Has(s, "requiresNewKey", VBool(true)))
      && (!IsAuthFailure(m) ==>
            Has(s, "status", VStr("failed")) && Has(s, "error", VStr("Download failed: " + m)))
  {
    hide Transfer;
    var r := Worker(appid, endpoint, env);
    LastUpdateWins(before, r.updates, "status");
    LastUpdateWins(before, r.updates, "error");
    if IsAuthFailure(m) {
      LastUpdateWins(before, r.updates, "requiresNewKey");
    }
  }

  lemma AuthMessageIsAuthFailure()
    ensures IsAuthFailure(AuthMessage)
  {
    hide Lower, Contains;
    var x, y := "API key ", "authentication failed";
    AuthMessageSplit();
    LowerConcat(x, y);
    AlreadyLower();
    ContainsSuffix(Lower(x), y);
  }

  lemma AuthMessageSplit()
    ensures AuthMessage == "API key " + "authentication failed"
  {
  }

  lemma AlreadyLower()
    ensures Lower("authentication failed") == "authentication failed"
  {
    LowerOfLower("authentication failed");
  }

  /** A 401 response ends in `auth_failed` asking for a new key. */
  lemma UnauthorizedEndsAuthFailed(appid: int, endpoint: string, env: Env, before: Fields)
    requires env.transport.Opened? && env.transport.response.status == 401
    ensures var s := FinalState(appid, endpoint, env, before);
      Has(s, "status", VStr("auth_failed")) && Has(s, "requiresNewKey", VBool(true))
      && Has(s, "error", VStr(AuthFailedError))
  {
    hide Worker, FinalState, Stream;
    AuthMessageIsAuthFailure();
    FailureState(appid, endpoint, env, before, AuthMessage);
  }

  /** A 404 response ends in `failed` naming the missing game. */
  lemma NotFoundFails(appid: int, endpoint: string, env: Env, before: Fields)
    requires env.transport.Opened? && env.transport.response.status == 404
    ensures var s := FinalState(appid, endpoint, env, before);
      Has(s, "status", VStr("failed"))
      && Has(s, "error", VStr("Download failed: Game " + Decimal.IntToString(appid) + " not found"))
  {
    hide Worker, FinalState, Stream;
    var m := "Game " + Decimal.IntToString(appid) + " not found";
    NotFoundNotAuth(appid);
    FailureState(appid, endpoint, env, before, m);
  }

  /** The 404 message has no `h`, so it cannot mention a failed authentication. */
  lemma NotFoundNotAuth(appid: int)
    ensures !IsAuthFailure("Game " + Decimal.IntToString(appid) + " not found")
  {
    var m := "Game " + Decimal.IntToString(appid) + " not found";
    assert 'h' !in m && 'H' !in m;
    LowerAvoids(m, 'h');
    NotContainedWithout(Lower(m), "authentication failed", 3);
  }

  /**
   Any other non-success status ends in `failed` with `HTTP {code}: {reason}`,
   unless the reason phrase itself reports a failed authentication.
   */
  lemma OtherStatusFails(appid: int, endpoint: string, env: Env, before: Fields)
    requires env.transport.Opened?
    requires var st := env.transport.response.status; !IsSuccess(st) && st != 401 && st != 404
    ensures var resp := env.transport.response;
      var s := FinalState(appid, endpoint, env, before);
      var m := "HTTP " + Decimal.IntToString(resp.status) + ": " + resp.reason;
      && (!Contains(Lower(resp.reason), "authentication failed") ==>
            Has(s, "status", VStr("failed")) && Has(s, "error", VStr("Download failed: " + m)))
      && (Contains(Lower(resp.reason), "authentication failed") ==>
            Has(s, "status", VStr("auth_failed")))
  {
    hide Worker, FinalState, Stream;
    var resp := env.transport.response;
    var head := "HTTP " + Decimal.IntToString(resp.status) + ": ";
    var m := head + resp.reason;
    assert 'a' !in head && 'A' !in head;
    LowerAvoids(head, 'a');
    LowerConcat(head, resp.reason);
    ContainsAfter(Lower(head), Lower(resp.reason), "authentication failed");
    FailureState(appid, endpoint, env, before, m);
  }

  /**
   A success status with a JSON content type is an error reply: `auth_failed`
   exactly when the body mentions authentication, `failed` with the body
   otherwise.
   */
  lemma JsonReplyFails(appid: int, endpoint: string, env: Env, before: Fields)
    requires env.transport.Opened?
    requires IsSuccess(env.transport.response.status) && IsJson(env.transport.response.contentType)
    ensures var body := env.transport.response.body;
      var s := FinalState(appid, endpoint, env, before);
      && (Contains(Lower(body), "authentication") ==>
            Has(s, "status", VStr("auth_failed")) && Has(s, "requiresNewKey", VBool(true)))
      && (!Contains(Lower(body), "authentication") ==>
            Has(s, "status", VStr("failed")) && Has(s, "error", VStr("Download failed: Server error: " + body)))
  {
    hide Worker, FinalState, Stream;
    var body := env.transport.response.body;
    if Contains(Lower(body), "authentication") {
      AuthMessageIsAuthFailure();
      FailureState(appid, endpoint, env, before, AuthMessage);
    } else {
      ServerErrorNotAuth(body);
      FailureState(appid, endpoint, env, before, "Server error: " + body);
    }
  }

  /** A server error whose body never mentions authentication is not a credential failure. */
  lemma ServerErrorNotAuth(body: string)
    requires !Contains(Lower(body), "authentication")
    ensures !IsAuthFailure("Server error: " + body)
  {
    var head := "Server error: ";
    assert 'a' !in head && 'A' !in head;
    LowerAvoids(head, 'a');
    LowerConcat(head, body);
    ContainsAfter(Lower(head), Lower(body), "authentication failed");
    if Contains(Lower(body), "authentication failed") {
      ContainsPrefix(Lower(body), "authentication failed", "authentication");
    }
  }

  /** A body of zero bytes ends in `failed` ("Empty download"), never in `done`. */
  lemma EmptyDownloadFails(appid: int, endpoint: string, env: Env, before: Fields)
    requires env.transport.Opened?
    requires var resp := env.transport.response;
      IsSuccess(resp.status) && !IsJson(resp.contentType) && resp.fault.None? && |Received(resp.chunks)| == 0
    requires ScratchPath(env.backendPath, appid) !in env.disk.denied
    ensures var s := FinalState(appid, endpoint, env, before);
      Has(s, "status", VStr("failed")) && Has(s, "error", VStr("Download failed: " + EmptyDownloadMessage))
  {
    hide Worker, FinalState, Install, Streamed, EmptyDownloadMessage;
    EmptyNotAuth();
    FailureState(appid, endpoint, env, before, EmptyDownloadMessage);
  }

  /** A scratch file that cannot be opened ends the run with the system's error, as any other failure. */
  lemma ScratchDeniedFails(appid: int, endpoint: string, env: Env, before: Fields)
    requires env.transport.Opened?
    requires var resp := env.transport.response; IsSuccess(resp.status) && !IsJson(resp.contentType)
    requires ScratchPath(env.backendPath, appid) in env.disk.denied
    ensures var m := env.disk.denied[ScratchPath(env.backendPath, appid)];
      var s := FinalState(appid, endpoint, env, before);
      && Transfer(appid, endpoint, env).error == Some(m)
      && (!IsAuthFailure(m) ==> Has(s, "status", VStr("failed")) && Has(s, "error", VStr("Download failed: " + m)))
  {
    hide Worker, FinalState, Install, Streamed;
    var m := env.disk.denied[ScratchPath(env.backendPath, appid)];
    ScratchDenied(appid, endpoint, env, env.transport.response);
    FailureState(appid, endpoint, env, before, m);
  }

  /** The transfer of a complete, non-empty body raises what the installation raises. */
  lemma TransferInstalls(appid: int, endpoint: string, env: Env)
    requires env.transport.Opened?
    requires var resp := env.transport.response;
      IsSuccess(resp.status) && !IsJson(resp.contentType) && resp.fault.None? && |Received(resp.chunks)| != 0
    requires ScratchPath(env.backendPath, appid) !in env.disk.denied
    ensures var scratch := ScratchPath(env.backendPath, appid);
      var bytes := Received(env.transport.response.chunks);
      Transfer(appid, endpoint, env).error == Install(appid, scratch, env, bytes, Put(env.disk, scratch, bytes)).error
  {
    hide Install, Stream;
    StreamInstalls(appid, endpoint, env, env.transport.response);
  }

  /** An archive `zipfile` rejects ends the run `failed` with `Invalid ZIP file: ` and the reader's message. */
  lemma BadZipFails(appid: int, endpoint: string, env: Env, before: Fields, m: string)
    requires env.transport.Opened?
    requires var resp := env.transport.response;
      IsSuccess(resp.status) && !IsJson(resp.contentType) && resp.fault.None? && |Received(resp.chunks)| != 0
    requires ScratchPath(env.backendPath, appid) !in env.disk.denied
    requires env.payload == BadZip(m)
    ensures var s := FinalState(appid, endpoint, env, before);
      !IsAuthFailure("Invalid ZIP file: " + m) ==>
        Has(s, "status", VStr("failed")) && Has(s, "error", VStr("Download failed: " + "Invalid ZIP file: " + m))
  {
    hide *;
    Regroup("Download failed: ", "Invalid ZIP file: ", m, "");
    BadZipError(appid, endpoint, env, m);
    FailureState(appid, endpoint, env, before, "Invalid ZIP file: " + m);
  }

  lemma BadZipError(appid: int, endpoint: string, env: Env, m: string)
    requires env.transport.Opened?
    requires var resp := env.transport.response;
      IsSuccess(resp.status) && !IsJson(resp.contentType) && resp.fault.None? && |Received(resp.chunks)| != 0
    requires ScratchPath(env.backendPath, appid) !in env.disk.denied
    requires env.payload == BadZip(m)
    ensures Transfer(appid, endpoint, env).error == Some("Invalid ZIP file: " + m)
  {
    hide Worker, FinalState, Stream, Streamed, Transfer, Received, ScratchPath;
    TransferInstalls(appid, endpoint, env);
  }

  /** An archive none of whose selected entries can be installed ends the run `failed`. */
  lemma NothingExtractedFails(appid: int, endpoint: string, env: Env, before: Fields, entries: seq<Archive.Entry>)
    requires env.transport.Opened?
    requires var resp := env.transport.response;
      IsSuccess(resp.status) && !IsJson(resp.contentType) && resp.fault.None? && |Received(resp.chunks)| != 0
    requires ScratchPath(env.backendPath, appid) !in env.disk.denied
    requires env.payload == Zip(entries)
    requires forall e :: e in Archive.Select(entries) ==> !Archive.Installable(appid, env.targetDir, e, env.disk.denied)
    ensures var s := FinalState(appid, endpoint, env, before);
      Has(s, "status", VStr("failed")) && Has(s, "error", VStr("Download failed: " + NothingExtractedMessage))
  {
    hide Worker, FinalState, Stream, Streamed;
    var scratch := ScratchPath(env.backendPath, appid);
    var bytes := Received(env.transport.response.chunks);
    Archive.NothingInstallable(appid, env.targetDir, Archive.Select(entries), Put(env.disk, scratch, bytes));
    TransferInstalls(appid, endpoint, env);
    NothingExtractedNotAuth();
    FailureState(appid, endpoint, env, before, NothingExtractedMessage);
  }

  lemma NothingExtractedNotAuth()
    ensures !IsAuthFailure(NothingExtractedMessage)
  {
    var a, b, c := "No files were ", "successfully extracted ", "from ZIP";
    assert 'h' !in a && 'H' !in a;
    assert 'h' !in b && 'H' !in b;
    assert 'h' !in c && 'H' !in c;
    WithoutHNotAuth(a + b + c);
  }

  /** A message without the letter `h` cannot mention a failed authentication. */
  lemma WithoutHNotAuth(m: string)
    requires 'h' !in m && 'H' !in m
    ensures !IsAuthFailure(m)
  {
    LowerAvoids(m, 'h');
    NotContainedWithout(Lower(m), "authentication failed", 3);
  }

  lemma EmptyNotAuth()
    ensures !IsAuthFailure(EmptyDownloadMessage)
  {
    var m := EmptyDownloadMessage;
    assert 'h' !in m && 'H' !in m;
    LowerAvoids(m, 'h');
    NotContainedWithout(Lower(m), "authentication failed", 3);
  }


  // ---------------------------------------------------------------------------
  // Totals

  lemma StreamedAllDownloading(resp: Response, interval: real, endpoint: string)
    ensures forall j :: 0 <= j < |Streamed(resp, interval, endpoint)| ==>
      StatusOf(Streamed(resp, interval, endpoint)[j]) == Some("downloading")
  {
    hide Coalesce;
  }

  /** Every status an update carries shows up in the statuses of its sequence. */
  lemma {:induction false} StatusListed(us: seq<Fields>, k: nat)
    requires k < |us| && StatusOf(us[k]).Some?
    ensures StatusOf(us[k]).value in Statuses(us)
    decreases |us|
  {
    if k > 0 {
      StatusListed(us[1..], k - 1);
    }
  }

  lemma InstallNeverProcessing(appid: int, scratch: string, env: Env, bytes: Bytes, disk: Disk)
    ensures var us := Install(appid, scratch, env, bytes, disk).updates;
      forall j :: 0 <= j < |us| ==> StatusOf(us[j]) != Some("processing")
  {
    var us := Install(appid, scratch, env, bytes, disk).updates;
    var t := InstallStatuses(appid, scratch, env, bytes, disk);
    assert "processing" !in t;
    forall j | 0 <= j < |us| && StatusOf(us[j]).Some?
      ensures StatusOf(us[j]) != Some("processing")
    {
      StatusListed(us, j);
    }
  }

  /** A `processing` update of the streaming stage follows a complete, non-empty body. */
  lemma StreamProcessing(appid: int, endpoint: string, env: Env, resp: Response, k: nat)
    requires k < |Stream(appid, endpoint, env, resp).updates|
    requires StatusOf(Stream(appid, endpoint, env, resp).updates[k]) == Some("processing")
    ensures ScratchPath(env.backendPath, appid) !in env.disk.denied
    ensures resp.fault.None? && |Received(resp.chunks)| > 0
    ensures Stream(appid, endpoint, env, resp).updates[k]
      == ProcessingUpdate(|Received(resp.chunks)|, ContentLength(resp.contentLength))
  {
    var streamed := Streamed(resp, env.interval, endpoint);
    var bytes := Received(resp.chunks);
    StreamedAllDownloading(resp, env.interval, endpoint);
    if ScratchPath(env.backendPath, appid) !in env.disk.denied && resp.fault.None? && |bytes| != 0 {
      var scratch := ScratchPath(env.backendPath, appid);
      var written := Put(env.disk, scratch, bytes);
      var i := Install(appid, scratch, env, bytes, written);
      var proc := ProcessingUpdate(|bytes|, ContentLength(resp.contentLength));
      InstallNeverProcessing(appid, scratch, env, bytes, written);
      assert Stream(appid, endpoint, env, resp).updates == streamed + [proc] + i.updates;
      OnlyMiddleProcesses(streamed, proc, i.updates, k);
    }
  }

  /** In downloading updates, one more, then updates that never process, a `processing` one is the middle one. */
  lemma OnlyMiddleProcesses(streamed: seq<Fields>, proc: Fields, rest: seq<Fields>, k: nat)
    requires forall j :: 0 <= j < |streamed| ==> StatusOf(streamed[j]) == Some("downloading")
    requires forall j :: 0 <= j < |rest| ==> StatusOf(rest[j]) != Some("processing")
    requires k < |streamed + [proc] + rest|
    requires StatusOf((streamed + [proc] + rest)[k]) == Some("processing")
    ensures k == |streamed|
    ensures (streamed + [proc] + rest)[k] == proc
  {
  }

  /**
   The `processing` update reports the number of bytes received, which is
   positive, and as total the Content-Length when it parsed to a non-zero
   value, the bytes received otherwise.
   */
  lemma ProcessingTotals(appid: int, endpoint: string, env: Env, k: nat)
    requires k < |Worker(appid, endpoint, env).updates|
    requires StatusOf(Worker(appid, endpoint, env).updates[k]) == Some("processing")
    ensures env.transport.Opened?
    ensures var resp := env.transport.response;
      var read := |Received(resp.chunks)|;
      var header := ContentLength(resp.contentLength);
      var u := Worker(appid, endpoint, env).updates[k];
      && read > 0
      && Has(u, "bytesRead", VInt(read))
      && Has(u, "totalBytes", VInt(if header == 0 then read else header))
  {
    var resp := ProcessingAt(appid, endpoint, env, k);
    ProcessingFields(|Received(resp.chunks)|, ContentLength(resp.contentLength));
  }

  /** A `processing` update of the worker is the streaming stage's, after a non-empty body. */
  lemma ProcessingAt(appid: int, endpoint: string, env: Env, k: nat) returns (resp: Response)
    requires k < |Worker(appid, endpoint, env).updates|
    requires StatusOf(Worker(appid, endpoint, env).updates[k]) == Some("processing")
    ensures env.transport == Opened(resp)
    ensures |Received(resp.chunks)| > 0
    ensures Worker(appid, endpoint, env).updates[k]
      == ProcessingUpdate(|Received(resp.chunks)|, ContentLength(resp.contentLength))
  {
    hide *;
    resp := WorkerIndex(appid, endpoint, env, k);
    StreamProcessing(appid, endpoint, env, resp, k - 1);
  }

  /** Between `checking` and the closing update, the worker's updates are the streaming stage's. */
  lemma WorkerIndex(appid: int, endpoint: string, env: Env, k: nat) returns (resp: Response)
    requires k < |Worker(appid, endpoint, env).updates|
    requires StatusOf(Worker(appid, endpoint, env).updates[k]) == Some("processing")
    ensures env.transport == Opened(resp)
    ensures 1 <= k <= |Stream(appid, endpoint, env, resp).updates|
    ensures Worker(appid, endpoint, env).updates[k] == Stream(appid, endpoint, env, resp).updates[k - 1]
  {
    hide Transfer, Closing;
    var a := Transfer(appid, endpoint, env);
    var last := Closing(endpoint, a.error);
    ClosingNotProcessing(endpoint, a.error);
    assert Worker(appid, endpoint, env).updates == [CheckingUpdate(endpoint)] + a.updates + [last];
    Between(CheckingUpdate(endpoint), a.updates, last, k);
    TransferUpdatesStream(appid, endpoint, env);
    resp := env.transport.response;
  }

  lemma ProcessingFields(read: nat, header: int)
    ensures Has(ProcessingUpdate(read, header), "bytesRead", VInt(read))
    ensures Has(ProcessingUpdate(read, header), "totalBytes", VInt(if header == 0 then read else header))
  {
  }

  lemma ClosingNotProcessing(endpoint: string, error: Option<string>)
    ensures StatusOf(Closing(endpoint, error)) != Some("processing")
  {
  }

  /** An update that neither end carries lies in the middle part. */
  lemma Between(first: Fields, mid: seq<Fields>, last: Fields, k: nat)
    requires k < |[first] + mid + [last]|
    requires StatusOf(([first] + mid + [last])[k]) != StatusOf(first)
    requires StatusOf(([first] + mid + [last])[k]) != StatusOf(last)
    ensures 1 <= k <= |mid|
    ensures ([first] + mid + [last])[k] == mid[k - 1]
  {
  }

  /** Only the streaming stage writes updates before the terminal one. */
  lemma TransferUpdatesStream(appid: int, endpoint: string, env: Env)
    requires |Transfer(appid, endpoint, env).updates| > 0
    ensures env.transport.Opened?
    ensures Transfer(appid, endpoint, env) == Stream(appid, endpoint, env, env.transport.response)
  {
    hide Stream;
  }

  // ---------------------------------------------------------------------------
  // Files

  /** The scratch file never survives the worker, whatever the outcome. */
  lemma ScratchRemoved(appid: int, endpoint: string, env: Env)
    ensures ScratchPath(env.backendPath, appid) !in Worker(appid, endpoint, env).disk.files
  {
    hide Transfer, Install;
    if Transfer(appid, endpoint, env).error.None? {
      var resp, bytes, disk := TransferLastUpdate(appid, endpoint, env);
      InstallRemovesScratch(appid, env, bytes, disk);
    }
  }

  lemma InstallRemovesScratch(appid: int, env: Env, bytes: Bytes, disk: Disk)
    requires Install(appid, ScratchPath(env.backendPath, appid), env, bytes, disk).error.None?
    ensures ScratchPath(env.backendPath, appid) !in Install(appid, ScratchPath(env.backendPath, appid), env, bytes, disk).disk.files
  {
    hide Archive.Extract, ScratchPath;
  }

  lemma ScratchName(backendPath: string, appid: int)
    ensures Paths.Basename(ScratchPath(backendPath, appid)) == "temp_" + Decimal.IntToString(appid) + ".zip"
  {
    var name := "temp_" + Decimal.IntToString(appid) + ".zip";
    assert Paths.NoSlash(name) by {
      forall i | 0 <= i < |name| ensures name[i] != '/' {
        var digits := Decimal.IntToString(appid);
        if 5 <= i < 5 + |digits| {
          assert name[i] == digits[i - 5];
        }
      }
    }
    Paths.BasenameOfJoin(backendPath, name);
  }

  /** No archive entry is ever written over the scratch file. */
  lemma DestinationIsNotScratch(appid: int, backendPath: string, target: string, name: string)
    ensures Archive.Destination(appid, target, name) != ScratchPath(backendPath, appid)
  {
    hide Archive.Destination, ScratchPath, Paths.Basename;
    ScratchEnds(backendPath, appid);
    if Archive.IsLuaName(name) {
      LuaDestinationEnd(appid, target, name);
    } else {
      OtherDestinationStart(appid, target, name);
    }
  }

  /** The scratch file's name starts with `t` and ends with `p`. */
  lemma ScratchEnds(backendPath: string, appid: int)
    ensures var sn := Paths.Basename(ScratchPath(backendPath, appid));
      |sn| > 0 && sn[0] == 't' && sn[|sn| - 1] == 'p'
  {
    ScratchName(backendPath, appid);
  }

  /** A script lands under its own base name, which ends in `a` or `A`. */
  lemma LuaDestinationEnd(appid: int, target: string, name: string)
    requires Archive.IsLuaName(name)
    ensures var dn := Paths.Basename(Archive.Destination(appid, target, name));
      |dn| > 0 && LowerChar(dn[|dn| - 1]) == 'a'
  {
    Archive.DestinationName(appid, target, name);
    Archive.LuaBasenameNonEmpty(name);
  }

  /** Any other entry lands under a name that starts with the app id. */
  lemma OtherDestinationStart(appid: int, target: string, name: string)
    requires !Archive.IsLuaName(name)
    ensures var dn := Paths.Basename(Archive.Destination(appid, target, name));
      |dn| > 0 && (Decimal.IsDigit(dn[0]) || dn[0] == '-')
  {
    Archive.DestinationName(appid, target, name);
    var dn := Paths.Basename(Archive.Destination(appid, target, name));
    assert dn[0] == Decimal.IntToString(appid)[0];
  }

  lemma SingleFileIsNotScratch(appid: int, backendPath: string, target: string)
    ensures Paths.Join(target, Decimal.IntToString(appid) + ".lua") != ScratchPath(backendPath, appid)
  {
    var file := Decimal.IntToString(appid) + ".lua";
    assert Paths.NoSlash(file) by {
      forall i | 0 <= i < |file| ensures file[i] != '/' {
        if i < |Decimal.IntToString(appid)| {
          assert file[i] == Decimal.IntToString(appid)[i];
        }
      }
    }
    Paths.BasenameOfJoin(target, file);
    ScratchName(backendPath, appid);
    assert file[0] != 't';
  }

  /**
   A successful install records a non-empty `installedFiles` in its last
   update, and every file listed is present afterwards.
   */
  lemma InstallRecords(appid: int, env: Env, bytes: Bytes, disk: Disk)
    requires Install(appid, ScratchPath(env.backendPath, appid), env, bytes, disk).error.None?
    ensures var i := Install(appid, ScratchPath(env.backendPath, appid), env, bytes, disk);
      && |i.updates| > 0
      && var u := i.updates[|i.updates| - 1];
      && "installedFiles" in u && u["installedFiles"].VStrs? && |u["installedFiles"].items| > 0
      && forall p :: p in u["installedFiles"].items ==> p in i.disk.files
  {
    var scratch := ScratchPath(env.backendPath, appid);
    match env.payload {
      case NotZip =>
        SingleFileIsNotScratch(appid, env.backendPath, env.targetDir);
      case Zip(entries) =>
        ExtractedKept(appid, env.backendPath, env.targetDir, Archive.Select(entries), disk);
    }
  }

  /** Removing the scratch file after extracting keeps every extracted file. */
  lemma ExtractedKept(appid: int, backendPath: string, target: string, entries: seq<Archive.Entry>, disk: Disk)
    ensures forall p :: p in Archive.Extract(appid, target, entries, disk).installed ==>
      p in Delete(Archive.Extract(appid, target, entries, disk).disk, ScratchPath(backendPath, appid)).files
  {
    var x := Archive.Extract(appid, target, entries, disk);
    forall p | p in x.installed
      ensures p in Delete(x.disk, ScratchPath(backendPath, appid)).files
    {
      Archive.ExtractInstalls(appid, target, entries, disk, p);
      Archive.ExtractWrites(appid, target, entries, disk, p);
      var j :| 0 <= j < |entries| && Archive.Installable(appid, target, entries[j], disk.denied)
               && Archive.Destination(appid, target, entries[j].name) == p;
      DestinationIsNotScratch(appid, backendPath, target, entries[j].name);
    }
  }

  /** The last update of a successful transfer is the install's last update. */
  lemma TransferLastUpdate(appid: int, endpoint: string, env: Env) returns (resp: Response, bytes: Bytes, disk: Disk)
    requires Transfer(appid, endpoint, env).error.None?
    ensures var a := Transfer(appid, endpoint, env);
      var i := Install(appid, ScratchPath(env.backendPath, appid), env, bytes, disk);
      && i.error.None? && |i.updates| > 0
      && |a.updates| > 0 && a.updates[|a.updates| - 1] == i.updates[|i.updates| - 1]
      && a.disk == i.disk
  {
    resp := env.transport.response;
    bytes := Received(resp.chunks);
    disk := Put(env.disk, ScratchPath(env.backendPath, appid), bytes);
    InstallRecords(appid, env, bytes, disk);
  }

  /**
   `done` is written only after a non-empty `installedFiles` was recorded for
   this run, and every listed file is present in the install directory.
   */
  lemma DoneRecordsInstalledFiles(appid: int, endpoint: string, env: Env, before: Fields)
    requires Has(FinalState(appid, endpoint, env, before), "status", VStr("done"))
    ensures var s := FinalState(appid, endpoint, env, before);
      && "installedFiles" in s && s["installedFiles"].VStrs? && |s["installedFiles"].items| > 0
      && forall p :: p in s["installedFiles"].items ==> p in Worker(appid, endpoint, env).disk.files
  {
    FinalStatusIsLast(appid, endpoint, env, before);
    var a := Transfer(appid, endpoint, env);
    var resp, bytes, disk := TransferLastUpdate(appid, endpoint, env);
    InstallRecords(appid, env, bytes, disk);
    var prefix := [CheckingUpdate(endpoint)] + a.updates;
    assert Worker(appid, endpoint, env).updates == prefix + [DoneUpdate(endpoint)];
    assert prefix[|prefix| - 1] == a.updates[|a.updates| - 1];
    LastUpdateWins(before, prefix, "installedFiles");
    UntouchedFieldKept(before, prefix, DoneUpdate(endpoint), "installedFiles");
  }
}
