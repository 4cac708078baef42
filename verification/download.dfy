/**
 The download worker `_download_from_manilua_backend`: a pure function from
 what the network, the clock and the archive reader report to the sequence of
 state updates it writes and the file system it leaves behind.
 */
module Download {
  import opened Wrappers
  import opened Text
  import opened Values
  import opened Files
  import opened StateStore
  import Decimal
  import Paths
  import Archive

  // ---------------------------------------------------------------------------
  // What the worker observes

  /** One chunk of the body and the clock reading taken right after writing it. */
  datatype Chunk = Chunk(data: Bytes, stamp: real)

  /**
   An opened streaming response: status, reason phrase, the two headers the
   worker reads, the body text (read only for JSON replies), the chunks, and
   the error raised after the last chunk when the stream broke off.
   */
  datatype Response = Response(
    status: int,
    reason: string,
    contentLength: Option<string>,
    contentType: Option<string>,
    body: string,
    chunks: seq<Chunk>,
    fault: Option<string>)

  /** `client.stream_get(...)`: httpx missing, the request failing, or a response. */
  datatype Transport = HttpxMissing | ConnectFailed(message: string) | Opened(response: Response)

  /** What `zipfile` makes of the scratch file. */
  datatype Payload = NotZip | BadZip(message: string) | Zip(entries: seq<Archive.Entry>)

  /**
   Everything the worker depends on besides the item: the plugin's backend
   directory (home of the scratch file), the install directory, the progress
   interval of the configuration, and the three oracles above.
   */
  datatype Env = Env(
    backendPath: string,
    targetDir: string,
    interval: real,
    transport: Transport,
    payload: Payload,
    disk: Disk)

  // ---------------------------------------------------------------------------
  // Messages and updates

  const HttpxMissingMessage := "httpx library is not available. Please install httpx: pip install httpx"
  const AuthMessage := "API key authentication failed"
  const AuthFailedError := "API key authentication failed. Please set a valid API key."
  const EmptyDownloadMessage := "Empty download from endpoint"
  const NothingExtractedMessage := "No files were " + "successfully extracted " + "from ZIP"

  predicate IsSuccess(status: int)
  {
    200 <= status < 300
  }

  /** The error raised for a non-success status. */
  function StatusMessage(appid: int, status: int, reason: string): string
  {
    if status == 401 then AuthMessage
    else if status == 404 then "Game " + Decimal.IntToString(appid) + " not found"
    else "HTTP " + Decimal.IntToString(status) + ": " + reason
  }

  /** `int(headers.get('Content-Length', '0'))`, 0 when that raises. */
  function ContentLength(header: Option<string>): int
  {
    Decimal.ParseInt(header.GetOr("0")).GetOr(0)
  }

  predicate IsJson(contentType: Option<string>)
  {
    Contains(Lower(contentType.GetOr("")), "application/json")
  }

  /** The error raised for a JSON reply that came with a success status. */
  function JsonMessage(status: int, body: string): string
  {
    if status == 401 || Contains(Lower(body), "authentication") then AuthMessage
    else "Server error: " + body
  }

  /** The worker's test for a credential problem: the message mentions a failed authentication. */
  predicate IsAuthFailure(message: string)
  {
    Contains(Lower(message), "authentication failed")
  }

  function ScratchPath(backendPath: string, appid: int): string
  {
    Paths.Join(backendPath, "temp_" + Decimal.IntToString(appid) + ".zip")
  }

  function StatusUpdate(status: string): Fields
  {
    map["status" := VStr(status)]
  }

  function CheckingUpdate(endpoint: string): Fields
  {
    map["status" := VStr("checking"), "bytesRead" := VInt(0), "totalBytes" := VInt(0),
        "endpoint" := VStr(endpoint)]
  }

  function StartUpdate(total: int): Fields
  {
    map["status" := VStr("downloading"), "bytesRead" := VInt(0), "totalBytes" := VInt(total)]
  }

  function ProgressUpdate(bytesRead: nat, total: int, endpoint: string): Fields
  {
    map["status" := VStr("downloading"), "bytesRead" := VInt(bytesRead), "totalBytes" := VInt(total),
        "endpoint" := VStr(endpoint)]
  }

  /** The total reported once the body is in: the header's value, or the bytes read when it gave 0. */
  function ProcessingUpdate(bytesRead: nat, total: int): Fields
  {
    map["status" := VStr("processing"), "bytesRead" := VInt(bytesRead),
        "totalBytes" := VInt(if total == 0 then bytesRead else total)]
  }

  function SingleFileUpdate(dest: string): Fields
  {
    map["status" := VStr("installing"), "installedFiles" := VStrs([dest]), "installedPath" := VStr(dest)]
  }

  function ExtractedUpdate(files: seq<string>): Fields
    requires |files| > 0
  {
    map["installedFiles" := VStrs(files), "installedPath" := VStr(files[0])]
  }

  function DoneUpdate(endpoint: string): Fields
  {
    map["status" := VStr("done"), "success" := VBool(true), "api" := VStr("manilua (" + endpoint + ")")]
  }

  /** The terminal update for an error: `auth_failed` for credential problems, `failed` otherwise. */
  function FailureUpdate(message: string): Fields
  {
    if IsAuthFailure(message) then
      map["status" := VStr("auth_failed"), "error" := VStr(AuthFailedError), "requiresNewKey" := VBool(true)]
    else
      map["status" := VStr("failed"), "error" := VStr("Download failed: " + message)]
  }

  // ---------------------------------------------------------------------------
  // Progress coalescing

  /** A progress write: the running byte count and the clock reading it was taken at. */
  datatype Report = Report(bytesRead: nat, stamp: real)

  datatype Progress = Progress(reports: seq<Report>, bytesRead: nat)

  /** All bytes of the body, in order. */
  function Received(chunks: seq<Chunk>): Bytes
    decreases |chunks|
  {
    if |chunks| == 0 then [] else chunks[0].data + Received(chunks[1..])
  }

  /** Length of the first non-empty chunk, 0 when every chunk is empty. */
  function FirstDataLength(chunks: seq<Chunk>): nat
    decreases |chunks|
  {
    if |chunks| == 0 then 0
    else if |chunks[0].data| > 0 then |chunks[0].data|
    else FirstDataLength(chunks[1..])
  }

  /** Whether the loop writes progress after chunk `c`, given the time of the previous write. */
  predicate Emits(c: Chunk, interval: real, last: real)
  {
    |c.data| > 0 && (last == 0.0 || c.stamp - last >= interval)
  }

  /**
   The progress loop: empty chunks are skipped; every other chunk adds to the
   running count, and a write happens when no write happened yet (`last` is
   0.0) or at least `interval` has passed since the previous one.
   */
  function Coalesce(chunks: seq<Chunk>, interval: real, read: nat, last: real): (p: Progress)
    ensures p.bytesRead == read + |Received(chunks)|
    ensures |p.reports| <= |chunks|
    decreases |chunks|
  {
    if |chunks| == 0 then Progress([], read)
    else
      var c := chunks[0];
      var now := read + |c.data|;
      if Emits(c, interval, last) then
        var rest := Coalesce(chunks[1..], interval, now, c.stamp);
        Progress([Report(now, c.stamp)] + rest.reports, rest.bytesRead)
      else
        Coalesce(chunks[1..], interval, now, last)
  }

  /** Progress counts strictly increase and stay above the starting count and within the bytes read. */
  predicate CountsIncrease(p: Progress, read: nat)
  {
    && (forall i :: 0 <= i < |p.reports| ==> read < p.reports[i].bytesRead <= p.bytesRead)
    && (forall i, j :: 0 <= i < j < |p.reports| ==> p.reports[i].bytesRead < p.reports[j].bytesRead)
  }

  lemma {:induction false} CoalesceCounts(chunks: seq<Chunk>, interval: real, read: nat, last: real)
    ensures CountsIncrease(Coalesce(chunks, interval, read, last), read)
    decreases |chunks|
  {
    if |chunks| > 0 {
      var c := chunks[0];
      var now := read + |c.data|;
      if |c.data| == 0 {
        CoalesceCounts(chunks[1..], interval, read, last);
        assert Coalesce(chunks, interval, read, last) == Coalesce(chunks[1..], interval, read, last);
      } else if last == 0.0 || c.stamp - last >= interval {
        CoalesceCounts(chunks[1..], interval, now, c.stamp);
        var rest := Coalesce(chunks[1..], interval, now, c.stamp);
        var p := Coalesce(chunks, interval, read, last);
        assert p.reports == [Report(now, c.stamp)] + rest.reports;
        assert forall i :: 0 < i < |p.reports| ==> p.reports[i] == rest.reports[i - 1];
      } else {
        CoalesceCounts(chunks[1..], interval, now, last);
        assert Coalesce(chunks, interval, read, last) == Coalesce(chunks[1..], interval, now, last);
      }
    }
  }

  /**
   Writes are paced: the first comes at least `interval` after the previous
   write (when there was one), and each later one at least `interval` after
   the one before it.
   */
  predicate Paced(p: Progress, interval: real, last: real)
  {
    && (|p.reports| > 0 ==> last == 0.0 || p.reports[0].stamp - last >= interval)
    && (forall i :: 0 <= i < |p.reports| - 1 ==>
          p.reports[i].stamp == 0.0 || p.reports[i + 1].stamp - p.reports[i].stamp >= interval)
  }

  lemma {:induction false} CoalescePacing(chunks: seq<Chunk>, interval: real, read: nat, last: real)
    ensures Paced(Coalesce(chunks, interval, read, last), interval, last)
    decreases |chunks|
  {
    if |chunks| > 0 {
      var c := chunks[0];
      var now := read + |c.data|;
      if |c.data| == 0 {
        CoalescePacing(chunks[1..], interval, read, last);
        assert Coalesce(chunks, interval, read, last) == Coalesce(chunks[1..], interval, read, last);
      } else if last == 0.0 || c.stamp - last >= interval {
        CoalescePacing(chunks[1..], interval, now, c.stamp);
        var rest := Coalesce(chunks[1..], interval, now, c.stamp);
        var p := Coalesce(chunks, interval, read, last);
        assert p.reports == [Report(now, c.stamp)] + rest.reports;
        assert forall i :: 0 < i < |p.reports| ==> p.reports[i] == rest.reports[i - 1];
      } else {
        CoalescePacing(chunks[1..], interval, now, last);
        assert Coalesce(chunks, interval, read, last) == Coalesce(chunks[1..], interval, now, last);
      }
    }
  }

  /** Before any write, the first non-empty chunk is always reported. */
  lemma {:induction false} CoalesceFirst(chunks: seq<Chunk>, interval: real, read: nat)
    requires FirstDataLength(chunks) > 0
    ensures var p := Coalesce(chunks, interval, read, 0.0);
      |p.reports| > 0 && p.reports[0].bytesRead == read + FirstDataLength(chunks)
    decreases |chunks|
  {
    if |chunks[0].data| == 0 {
      CoalesceFirst(chunks[1..], interval, read);
    }
  }

  /** The bytes of the first `n` chunks are the first chunk's bytes followed by those of the next `n - 1`. */
  lemma ReceivedCons(chunks: seq<Chunk>, n: nat)
    requires 1 <= n <= |chunks|
    ensures Received(chunks[..n]) == chunks[0].data + Received(chunks[1..][..n - 1])
  {
    var pre := chunks[..n];
    assert pre[0] == chunks[0];
    assert pre[1..] == chunks[1..][..n - 1];
  }

  /** `r` is the running count and clock reading right after the non-empty chunk `j`. */
  predicate ReportAt(chunks: seq<Chunk>, read: nat, r: Report, j: int)
  {
    0 <= j < |chunks| && |chunks[j].data| > 0 && r == Report(read + |Received(chunks[..j + 1])|, chunks[j].stamp)
  }

  /** Every write reports the bytes read so far, and the clock reading, right after some non-empty chunk. */
  predicate RunningTotals(chunks: seq<Chunk>, read: nat, p: Progress)
  {
    forall r :: r in p.reports ==> exists j :: 0 <= j < |chunks| && ReportAt(chunks, read, r, j)
  }

  /** A report after chunk `j` of the remaining chunks is a report after chunk `j + 1` of them all. */
  lemma ShiftReport(chunks: seq<Chunk>, read: nat, r: Report, j: int)
    requires |chunks| > 0 && ReportAt(chunks[1..], read + |chunks[0].data|, r, j)
    ensures ReportAt(chunks, read, r, j + 1)
  {
    ReceivedCons(chunks, j + 2);
    assert chunks[j + 1] == chunks[1..][j];
  }

  /** One turn of the loop: a write for the first chunk when it is due, then the rest of the chunks. */
  lemma CoalesceStep(chunks: seq<Chunk>, interval: real, read: nat, last: real)
    requires |chunks| > 0
    ensures var c := chunks[0];
      var now := read + |c.data|;
      Coalesce(chunks, interval, read, last).reports
        == (if Emits(c, interval, last) then [Report(now, c.stamp)] else [])
           + Coalesce(chunks[1..], interval, now, if Emits(c, interval, last) then c.stamp else last).reports
  {
  }

  /** A write after the first chunk reports that chunk's bytes and clock reading. */
  lemma FirstReport(chunks: seq<Chunk>, interval: real, read: nat, last: real)
    requires |chunks| > 0 && Emits(chunks[0], interval, last)
    ensures ReportAt(chunks, read, Report(read + |chunks[0].data|, chunks[0].stamp), 0)
  {
    ReceivedCons(chunks, 1);
  }

  lemma {:induction false} CoalesceTotals(chunks: seq<Chunk>, interval: real, read: nat, last: real)
    ensures RunningTotals(chunks, read, Coalesce(chunks, interval, read, last))
    decreases |chunks|
  {
    if |chunks| > 0 {
      hide Coalesce, ReportAt, Received, Emits;
      var c := chunks[0];
      var now := read + |c.data|;
      var emit := Emits(c, interval, last);
      var p := Coalesce(chunks, interval, read, last);
      var rest := Coalesce(chunks[1..], interval, now, if emit then c.stamp else last);
      CoalesceStep(chunks, interval, read, last);
      CoalesceTotals(chunks[1..], interval, now, if emit then c.stamp else last);
      forall r | r in p.reports ensures exists j :: 0 <= j < |chunks| && ReportAt(chunks, read, r, j) {
        if emit && r == Report(now, c.stamp) {
          FirstReport(chunks, interval, read, last);
        } else {
          assert r in rest.reports;
          var j :| 0 <= j < |chunks| - 1 && ReportAt(chunks[1..], now, r, j);
          ShiftReport(chunks, read, r, j);
        }
      }
    }
  }

  /**
   A non-empty chunk that comes at least `interval` after every earlier
   non-empty chunk, and after `last` unless nothing was written yet, is always
   reported with the bytes read up to and including it.
   */
  lemma {:induction false} CoalesceReportsDue(chunks: seq<Chunk>, interval: real, read: nat, last: real, j: nat)
    requires j < |chunks| && |chunks[j].data| > 0
    requires last == 0.0 || chunks[j].stamp - last >= interval
    requires forall i :: 0 <= i < j && |chunks[i].data| > 0 ==> chunks[j].stamp - chunks[i].stamp >= interval
    ensures Report(read + |Received(chunks[..j + 1])|, chunks[j].stamp) in Coalesce(chunks, interval, read, last).reports
    decreases |chunks|
  {
    hide Coalesce;
    var c := chunks[0];
    var now := read + |c.data|;
    CoalesceStep(chunks, interval, read, last);
    ReceivedCons(chunks, j + 1);
    if j > 0 {
      var emit := Emits(c, interval, last);
      var last' := if emit then c.stamp else last;
      var rest := chunks[1..];
      assert rest[j - 1] == chunks[j];
      forall i | 0 <= i < j - 1 && |rest[i].data| > 0 ensures rest[j - 1].stamp - rest[i].stamp >= interval {
        assert rest[i] == chunks[i + 1];
      }
      CoalesceReportsDue(rest, interval, now, last', j - 1);
    }
  }

  /**
   The clock reading of the last write before chunk `n`, read off the
   chunks from the front: `last` when no chunk before `n` was written.
   */
  function LastWriteBefore(chunks: seq<Chunk>, interval: real, last: real, n: nat): real
    requires n <= |chunks|
  {
    if n == 0 then last
    else
      var before := LastWriteBefore(chunks, interval, last, n - 1);
      if Emits(chunks[n - 1], interval, before) then chunks[n - 1].stamp else before
  }

  /**
   The writes for the first `n` chunks, chunk by chunk: chunk `j` is written
   exactly when it is non-empty and nothing was written before it (with `last`
   0.0 or `interval` passed since `last`), or `interval` has passed since the
   last write before it; the write carries the bytes read through chunk `j`.
   */
  function DueReports(chunks: seq<Chunk>, interval: real, read: nat, last: real, n: nat): seq<Report>
    requires n <= |chunks|
  {
    if n == 0 then []
    else
      DueReports(chunks, interval, read, last, n - 1)
      + (if Emits(chunks[n - 1], interval, LastWriteBefore(chunks, interval, last, n - 1))
         then [Report(read + |Received(chunks[..n])|, chunks[n - 1].stamp)] else [])
  }

  /** Reading the last write from the front agrees with dropping the first chunk and starting from its outcome. */
  lemma {:induction false} LastWriteShift(chunks: seq<Chunk>, interval: real, last: real, k: nat)
    requires k < |chunks|
    ensures var c := chunks[0];
      LastWriteBefore(chunks, interval, last, k + 1)
        == LastWriteBefore(chunks[1..], interval, if Emits(c, interval, last) then c.stamp else last, k)
  {
    if k > 0 {
      LastWriteShift(chunks, interval, last, k - 1);
      assert chunks[1..][k - 1] == chunks[k];
    }
  }

  /** The writes for the first `k + 1` chunks: the first chunk's, then those of the next `k` counted from it. */
  lemma {:induction false} DueShift(chunks: seq<Chunk>, interval: real, read: nat, last: real, k: nat)
    requires k < |chunks|
    ensures var c := chunks[0];
      var emit := Emits(c, interval, last);
      DueReports(chunks, interval, read, last, k + 1)
        == (if emit then [Report(read + |c.data|, c.stamp)] else [])
           + DueReports(chunks[1..], interval, read + |c.data|, if emit then c.stamp else last, k)
  {
    var c := chunks[0];
    var emit := Emits(c, interval, last);
    var last' := if emit then c.stamp else last;
    var first := if emit then [Report(read + |c.data|, c.stamp)] else [];
    ReceivedCons(chunks, k + 1);
    if k == 0 {
      assert chunks[1..][..0] == [];
    } else {
      DueShift(chunks, interval, read, last, k - 1);
      LastWriteShift(chunks, interval, last, k - 1);
      assert chunks[1..][k - 1] == chunks[k];
    }
  }

  lemma {:induction false} CoalesceIsDue(chunks: seq<Chunk>, interval: real, read: nat, last: real)
    ensures Coalesce(chunks, interval, read, last).reports == DueReports(chunks, interval, read, last, |chunks|)
    decreases |chunks|
  {
    if |chunks| > 0 {
      var c, rest := chunks[0], chunks[1..];
      var emit := Emits(c, interval, last);
      var first := if emit then [Report(read + |c.data|, c.stamp)] else [];
      var read', last' := read + |c.data|, if emit then c.stamp else last;
      assert |rest| == |chunks| - 1;
      hide *;
      CoalesceStep(chunks, interval, read, last);
      CoalesceIsDue(rest, interval, read', last');
      DueShift(chunks, interval, read, last, |rest|);
      assert Coalesce(chunks, interval, read, last).reports == first + DueReports(rest, interval, read', last', |rest|);
    }
  }

  /** The writes for a shorter prefix of chunks come first among those for a longer one. */
  lemma {:induction false} DueGrows(chunks: seq<Chunk>, interval: real, read: nat, last: real, m: nat, n: nat)
    requires m <= n <= |chunks|
    ensures |DueReports(chunks, interval, read, last, m)| <= |DueReports(chunks, interval, read, last, n)|
    ensures DueReports(chunks, interval, read, last, n)[..|DueReports(chunks, interval, read, last, m)|]
      == DueReports(chunks, interval, read, last, m)
    decreases n
  {
    if m < n {
      DueGrows(chunks, interval, read, last, m, n - 1);
      var shorter := DueReports(chunks, interval, read, last, n - 1);
      assert DueReports(chunks, interval, read, last, n)[..|shorter|] == shorter;
    }
  }

  /** Every write comes from a chunk that was due, and carries that chunk's running total and clock reading. */
  lemma {:induction false} DueReportsFrom(chunks: seq<Chunk>, interval: real, read: nat, last: real, n: nat, k: nat)
    requires n <= |chunks| && k < |DueReports(chunks, interval, read, last, n)|
    ensures exists i :: (0 <= i < n && Emits(chunks[i], interval, LastWriteBefore(chunks, interval, last, i))
      && DueReports(chunks, interval, read, last, n)[k] == Report(read + |Received(chunks[..i + 1])|, chunks[i].stamp))
  {
    var shorter := DueReports(chunks, interval, read, last, n - 1);
    if k < |shorter| {
      DueReportsFrom(chunks, interval, read, last, n - 1, k);
    } else {
      assert Emits(chunks[n - 1], interval, LastWriteBefore(chunks, interval, last, n - 1));
    }
  }

  /**
   Chunk `j` is written when it is due: non-empty, and either nothing was
   written before it (and `last` is 0.0 or `interval` behind it) or `interval`
   has passed since the last write before it.
   */
  lemma CoalesceReportsWhenDue(chunks: seq<Chunk>, interval: real, read: nat, last: real, j: nat)
    requires j < |chunks| && Emits(chunks[j], interval, LastWriteBefore(chunks, interval, last, j))
    ensures Report(read + |Received(chunks[..j + 1])|, chunks[j].stamp) in Coalesce(chunks, interval, read, last).reports
  {
    CoalesceIsDue(chunks, interval, read, last);
    DueGrows(chunks, interval, read, last, j + 1, |chunks|);
    var due := DueReports(chunks, interval, read, last, j + 1);
    assert due == DueReports(chunks, interval, read, last, j) + [Report(read + |Received(chunks[..j + 1])|, chunks[j].stamp)];
    assert due[|due| - 1] == Report(read + |Received(chunks[..j + 1])|, chunks[j].stamp);
    assert due[|due| - 1] == DueReports(chunks, interval, read, last, |chunks|)[|due| - 1];
  }

  /** With distinct clock readings per chunk, chunk `j`'s write appears exactly when chunk `j` is due. */
  lemma CoalesceReportsIffDue(chunks: seq<Chunk>, interval: real, read: nat, last: real, j: nat)
    requires j < |chunks|
    requires forall i, k :: 0 <= i < k < |chunks| ==> chunks[i].stamp < chunks[k].stamp
    ensures Report(read + |Received(chunks[..j + 1])|, chunks[j].stamp) in Coalesce(chunks, interval, read, last).reports
      <==> Emits(chunks[j], interval, LastWriteBefore(chunks, interval, last, j))
  {
    var reports := Coalesce(chunks, interval, read, last).reports;
    if Report(read + |Received(chunks[..j + 1])|, chunks[j].stamp) in reports {
      CoalesceIsDue(chunks, interval, read, last);
      var k :| 0 <= k < |reports| && reports[k] == Report(read + |Received(chunks[..j + 1])|, chunks[j].stamp);
      DueReportsFrom(chunks, interval, read, last, |chunks|, k);
      var i :| 0 <= i < |chunks| && Emits(chunks[i], interval, LastWriteBefore(chunks, interval, last, i))
        && reports[k] == Report(read + |Received(chunks[..i + 1])|, chunks[i].stamp);
      assert i == j;
    }
    if Emits(chunks[j], interval, LastWriteBefore(chunks, interval, last, j)) {
      CoalesceReportsWhenDue(chunks, interval, read, last, j);
    }
  }

  function ProgressUpdates(reports: seq<Report>, total: int, endpoint: string): seq<Fields>
  {
    seq(|reports|, i requires 0 <= i < |reports| => ProgressUpdate(reports[i].bytesRead, total, endpoint))
  }

  // ---------------------------------------------------------------------------
  // The worker

  /** What one stage produced: its updates, the file system after it, and the error it raised. */
  datatype Attempt = Attempt(updates: seq<Fields>, disk: Disk, error: Option<string>)

  datatype Run = Run(updates: seq<Fields>, disk: Disk)

  /** Installing the downloaded bytes, after the `processing` update. */
  function Install(appid: int, scratch: string, env: Env, bytes: Bytes, disk: Disk): Attempt
  {
    match env.payload
    case NotZip =>
      var dest := Paths.Join(env.targetDir, Decimal.IntToString(appid) + ".lua");
      if dest in disk.denied then Attempt([], disk, Some(disk.denied[dest]))
      else Attempt([SingleFileUpdate(dest)], Delete(Put(disk, dest, bytes), scratch), None)
    case BadZip(m) =>
      Attempt([StatusUpdate("extracting")], disk, Some("Invalid ZIP file: " + m))
    case Zip(entries) =>
      var x := Archive.Extract(appid, env.targetDir, Archive.Select(entries), disk);
      if |x.installed| == 0 then
        Attempt([StatusUpdate("extracting"), StatusUpdate("installing")], x.disk, Some(NothingExtractedMessage))
      else
        Attempt([StatusUpdate("extracting"), StatusUpdate("installing"), ExtractedUpdate(x.installed)],
                Delete(x.disk, scratch), None)
  }

  /** The updates written while the body streams in: the start update, then the coalesced progress. */
  function Streamed(resp: Response, interval: real, endpoint: string): seq<Fields>
  {
    var total := ContentLength(resp.contentLength);
    [StartUpdate(total)] + ProgressUpdates(Coalesce(resp.chunks, interval, 0, 0.0).reports, total, endpoint)
  }

  /**
   Streaming a success response into the scratch file, then installing it. A
   scratch file that cannot be opened for writing stops the run right after
   the first `downloading` update.
   */
  function Stream(appid: int, endpoint: string, env: Env, resp: Response): Attempt
  {
    var scratch := ScratchPath(env.backendPath, appid);
    if scratch in env.disk.denied then
      Attempt([StartUpdate(ContentLength(resp.contentLength))], env.disk, Some(env.disk.denied[scratch]))
    else
    var bytes := Received(resp.chunks);
    var written := Put(env.disk, scratch, bytes);
    var streamed := Streamed(resp, env.interval, endpoint);
    if resp.fault.Some? then Attempt(streamed, written, resp.fault)
    else if |bytes| == 0 then Attempt(streamed, written, Some(EmptyDownloadMessage))
    else
      var i := Install(appid, scratch, env, bytes, written);
      var processing := ProcessingUpdate(|bytes|, ContentLength(resp.contentLength));
      Attempt(streamed + [processing] + i.updates, i.disk, i.error)
  }

  /** Everything between the `checking` update and the terminal one. */
  function Transfer(appid: int, endpoint: string, env: Env): Attempt
  {
    match env.transport
    case HttpxMissing => Attempt([], env.disk, Some(HttpxMissingMessage))
    case ConnectFailed(m) => Attempt([], env.disk, Some(m))
    case Opened(resp) =>
      if !IsSuccess(resp.status) then
        Attempt([], env.disk, Some(StatusMessage(appid, resp.status, resp.reason)))
      else if IsJson(resp.contentType) then
        Attempt([], env.disk, Some(JsonMessage(resp.status, resp.body)))
      else Stream(appid, endpoint, env, resp)
  }

  /**
   `_download_from_manilua_backend(appid, endpoint)`: `checking`, the transfer,
   then `done` or the failure update; the scratch file is removed on every
   error exit (and was already removed on success).
   */
  function Worker(appid: int, endpoint: string, env: Env): Run
  {
    var a := Transfer(appid, endpoint, env);
    var disk := if a.error.None? then a.disk else Delete(a.disk, ScratchPath(env.backendPath, appid));
    Run([CheckingUpdate(endpoint)] + a.updates + [Closing(endpoint, a.error)], disk)
  }

  /** The terminal update: `done` when the transfer raised nothing, the failure update otherwise. */
  function Closing(endpoint: string, error: Option<string>): Fields
  {
    match error
    case None => DoneUpdate(endpoint)
    case Some(m) => FailureUpdate(m)
  }

  /** The item's fields after the worker ran on top of `before`. */
  function FinalState(appid: int, endpoint: string, env: Env, before: Fields): Fields
  {
    Merged(before, Worker(appid, endpoint, env).updates)
  }
}
