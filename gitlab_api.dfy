/** gitlab_api.py: how each answer of the GitLab API is classified, and the download
    with its bounded retry. Every network answer is an input: an `Attempt`, a
    `PollReply` or a `ListReply` says what `requests` gave back. */
module GitlabApi {
  import opened Wrappers
  import opened Builtins
  import opened Projects
  import opened Progress

  // ---------------------------------------------------------------------------
  // get_projects, start_export, check_export_status

  /** What `requests.get` of the project list ends in: an answer with its status and its
      body (None when `response.json()` does not give a list of projects), or an exception. */
  datatype ListReply = ListAnswer(status: int, body: Option<seq<ApiProject>>) | ListFailed

  /** get_projects: `(projects, True)` on a 200 answer whose body decodes, and
      `(None, False)` on any other status or any exception. */
  function GetProjects(reply: ListReply): (r: (Option<seq<ApiProject>>, bool))
    ensures r.1 <==> r.0.Some?
    ensures r.1 <==> reply.ListAnswer? && reply.status == 200 && reply.body.Some?
    ensures r.1 ==> r.0 == reply.body
  {
    match reply
    case ListAnswer(status, body) =>
      if status == 200 && body.Some? then (body, true) else (None, false)
    case ListFailed => (None, false)
  }

  /** start_export: only 202 Accepted means the export job was started. */
  function StartExport(status: int): (accepted: bool)
    ensures accepted <==> status == 202
  {
    match status
    case 202 => true
    case _ => false
  }

  /** The body of an export-status answer: not JSON, JSON that is not an object, or an
      object whose `export_status` is a string or missing (None; a JSON null reads the same). */
  datatype StatusBody = NotJson | NotObject | Object(exportStatus: Option<string>)

  datatype PollReply = PollReply(status: int, body: StatusBody)

  /** check_export_status: `export_status` of a 200 answer, None for every other status.
      Decoding is not guarded: a body that is not JSON raises requests' JSONDecodeError
      (a ValueError), and `.get` on a non-object raises AttributeError. */
  function CheckExportStatus(reply: PollReply): (r: Run<Option<string>>)
    ensures !r.Pending?
    ensures reply.status != 200 ==> r == Return(None)
    ensures r.Raise? <==> reply.status == 200 && !reply.body.Object?
    ensures r.Raise? ==> r.error == if reply.body.NotJson? then ValueError else AttributeError
    ensures reply.status == 200 && reply.body.Object? ==> r == Return(reply.body.exportStatus)
    ensures r.Return? && r.value.Some? ==> reply.status == 200 && reply.body == Object(r.value)
  {
    if reply.status != 200 then Return(None)
    else match reply.body
      case NotJson => Raise(ValueError)
      case NotObject => Raise(AttributeError)
      case Object(s) => Return(s)
  }

  // ---------------------------------------------------------------------------
  // download_export

  newtype Byte = b: int | 0 <= b < 256

  type Bytes = seq<Byte>

  /** The archive files, by path. */
  type Disk = map<string, Bytes>

  /** One turn of the retry loop, as the network gives it: an answer with its status and
      the chunks `iter_content` yields (read only on 200), or an exception. An exception
      carries the chunks streamed before it when a 200 answer had already opened the file
      (Some), and None when it came before that: from `requests.get` itself or from
      parsing `content-length`. */
  datatype Attempt =
    | Response(status: int, chunks: seq<Bytes>)
    | Exception(streamed: Option<seq<Bytes>>)

  /** The chunks joined in order; an empty chunk, which the source skips, adds nothing. */
  function Concat(chunks: seq<Bytes>): Bytes {
    if chunks == [] then [] else Concat(chunks[..|chunks| - 1]) + chunks[|chunks| - 1]
  }

  /** `range(MAX_RETRIES)` has this many turns. */
  function Budget(maxRetries: int): nat {
    if maxRetries > 0 then maxRetries else 0
  }

  /** An answer that ends the loop at once: 200, or any status other than 429. */
  predicate Decisive(a: Attempt) {
    a.Response? && a.status != 429
  }

  /** The index of the first decisive attempt, `|attempts|` when there is none. */
  function FirstDecisive(attempts: seq<Attempt>): (k: nat)
    ensures k <= |attempts|
    ensures forall j :: 0 <= j < k ==> !Decisive(attempts[j])
    ensures k < |attempts| ==> Decisive(attempts[k])
  {
    if attempts == [] then 0
    else if Decisive(attempts[0]) then 0
    else FirstDecisive(attempts[1..]) + 1
  }

  lemma FirstDecisiveIs(attempts: seq<Attempt>, k: nat)
    requires k <= |attempts|
    requires forall j :: 0 <= j < k ==> !Decisive(attempts[j])
    requires k < |attempts| ==> Decisive(attempts[k])
    ensures FirstDecisive(attempts) == k
  {
  }

  /** A decisive answer on turn k, after none before it, ends the loop there. */
  lemma StopsOnTurn(maxRetries: int, attempts: seq<Attempt>, k: nat)
    requires Budget(maxRetries) <= |attempts| && k < Budget(maxRetries)
    requires forall j :: 0 <= j < k ==> !Decisive(attempts[j])
    requires Decisive(attempts[k])
    ensures RequestCount(maxRetries, attempts) == k + 1
    ensures DownloadSucceeds(maxRetries, attempts) <==> attempts[k].status == 200
  {
    var n := Budget(maxRetries);
    assert attempts[..n][k] == attempts[k];
    FirstDecisiveIs(attempts[..n], k);
  }

  /** With no decisive answer among the turns, every turn is used and the result is False. */
  lemma NoDecisiveTurn(maxRetries: int, attempts: seq<Attempt>)
    requires Budget(maxRetries) <= |attempts|
    requires forall j :: 0 <= j < Budget(maxRetries) ==> !Decisive(attempts[j])
    ensures RequestCount(maxRetries, attempts) == Budget(maxRetries)
    ensures !DownloadSucceeds(maxRetries, attempts)
  {
    var n := Budget(maxRetries);
    FirstDecisiveIs(attempts[..n], n);
  }

  /** The requests download_export issues. */
  function RequestCount(maxRetries: int, attempts: seq<Attempt>): nat
    requires Budget(maxRetries) <= |attempts|
  {
    var n := Budget(maxRetries);
    var k := FirstDecisive(attempts[..n]);
    if k < n then k + 1 else n
  }

  /** download_export returns True. */
  predicate DownloadSucceeds(maxRetries: int, attempts: seq<Attempt>)
    requires Budget(maxRetries) <= |attempts|
  {
    var n := Budget(maxRetries);
    var k := FirstDecisive(attempts[..n]);
    k < n && attempts[k].status == 200
  }

  /** What one attempt leaves at `path`: `open(filepath, 'wb')` on a 200 answer truncates
      the file, which then holds what was streamed, whether the stream completed or an
      exception cut it short; any other attempt leaves the disk as it was. */
  function AfterAttempt(disk: Disk, path: string, a: Attempt): Disk {
    match a
    case Response(status, chunks) => if status == 200 then disk[path := Concat(chunks)] else disk
    case Exception(streamed) =>
      match streamed
      case Some(chunks) => disk[path := Concat(chunks)]
      case None => disk
  }

  function AfterAttempts(disk: Disk, path: string, attempts: seq<Attempt>): Disk {
    if attempts == [] then disk
    else AfterAttempt(AfterAttempts(disk, path, attempts[..|attempts| - 1]), path, attempts[|attempts| - 1])
  }

  lemma AfterAttemptsStep(disk: Disk, path: string, attempts: seq<Attempt>, i: nat)
    requires i < |attempts|
    ensures AfterAttempts(disk, path, attempts[..i + 1])
         == AfterAttempt(AfterAttempts(disk, path, attempts[..i]), path, attempts[i])
  {
    assert attempts[..i + 1][..i] == attempts[..i];
  }

  /** `os.path.join(output_dir, f"{project_id}_{project_info['name']}.tar.gz")`. */
  function ArchivePath(outputDir: string, projectId: int, name: string): (p: string)
    ensures var file := DecimalString(projectId) + "_" + name + ".tar.gz";
      && outputDir <= p
      && |file| <= |p| && p[|p| - |file|..] == file
      && |p| == |outputDir| + |file| + (if outputDir != [] && outputDir[|outputDir| - 1] != '/' then 1 else 0)
      && (outputDir != [] && outputDir[|outputDir| - 1] != '/' ==> p[|outputDir|] == '/')
  {
    var file := DecimalString(projectId) + "_" + name + ".tar.gz";
    assert file[0] == DecimalString(projectId)[0];
    JoinPath(outputDir, file)
  }

  /** The `with open(filepath, 'wb')` block: the file starts empty, each non-empty chunk
      is appended and counted on the progress bar. */
  method StreamToFile(chunks: seq<Bytes>) returns (file: Bytes, reported: int)
    ensures file == Concat(chunks)
    ensures reported == |file|
  {
    file := [];
    var bar := new ProgressBar();
    var i := 0;
    while i < |chunks|
      invariant 0 <= i <= |chunks|
      invariant file == Concat(chunks[..i])
      invariant bar.n == |file|
    {
      var chunk := chunks[i];
      assert chunks[..i + 1][..i] == chunks[..i];
      if |chunk| > 0 {
        file := file + chunk;
        bar.Update(|chunk|);
      }
      i := i + 1;
    }
    assert chunks[..|chunks|] == chunks;
    reported := bar.n;
  }

  /** download_export: the archive path `output_dir/{project_id}_{name}.tar.gz`, then the
      retry loop writing to it. */
  method DownloadExport(maxRetries: int, projectId: int, info: Record, outputDir: string,
                        attempts: seq<Attempt>, disk: Disk)
    returns (ok: bool, disk': Disk, requests: nat, sleeps: nat, reported: int)
    requires Budget(maxRetries) <= |attempts|
    ensures requests == RequestCount(maxRetries, attempts) <= Budget(maxRetries)
    ensures sleeps == if requests == 0 then 0 else requests - 1
    ensures ok <==> DownloadSucceeds(maxRetries, attempts)
    ensures disk' == AfterAttempts(disk, ArchivePath(outputDir, projectId, info.name), attempts[..requests])
    ensures ok ==> var path := ArchivePath(outputDir, projectId, info.name);
      && path in disk'
      && disk'[path] == Concat(attempts[requests - 1].chunks)
      && reported == |disk'[path]|
    ensures !ok ==> reported == 0
  {
    ok, disk', requests, sleeps, reported := DownloadTo(maxRetries, ArchivePath(outputDir, projectId, info.name),
                                                         attempts, disk);
  }

  /** The retry loop of download_export: up to `maxRetries` requests; 429 and exceptions
      are retried after a sleep while turns remain, a 200 answer is streamed to `path` and
      ends with True, any other status ends with False at once. `requests`, `sleeps` and
      `reported` count the calls to `requests.get`, to `time.sleep` and the bytes the
      progress bar of a successful turn shows. */
  method DownloadTo(maxRetries: int, path: string, attempts: seq<Attempt>, disk: Disk)
    returns (ok: bool, disk': Disk, requests: nat, sleeps: nat, reported: int)
    requires Budget(maxRetries) <= |attempts|
    ensures requests == RequestCount(maxRetries, attempts) <= Budget(maxRetries)
    ensures sleeps == if requests == 0 then 0 else requests - 1
    ensures ok <==> DownloadSucceeds(maxRetries, attempts)
    ensures disk' == AfterAttempts(disk, path, attempts[..requests])
    ensures ok ==> path in disk' && disk'[path] == Concat(attempts[requests - 1].chunks) && reported == |disk'[path]|
    ensures !ok ==> reported == 0
  {
    var n := Budget(maxRetries);
    ok, disk', requests, sleeps, reported := false, disk, 0, 0, 0;
    var attempt := 0;
    while attempt < n
      invariant 0 <= attempt <= n
      invariant attempt < n || attempt == 0
      invariant requests == attempt && sleeps == attempt
      invariant forall j :: 0 <= j < attempt ==> !Decisive(attempts[j])
      invariant disk' == AfterAttempts(disk, path, attempts[..attempt])
    {
      requests := requests + 1;
      AfterAttemptsStep(disk, path, attempts, attempt);
      var a := attempts[attempt];
      if a.Response? && a.status == 200 {
        var file, count := StreamToFile(a.chunks);
        disk' := disk'[path := file];
        ok, reported := true, count;
        StopsOnTurn(maxRetries, attempts, attempt);
        return;
      } else if a.Response? && a.status != 429 {
        StopsOnTurn(maxRetries, attempts, attempt);
        return;
      }
      assert !Decisive(attempts[attempt]);
      if a.Exception? && a.streamed.Some? {
        var file, _ := StreamToFile(a.streamed.value);
        disk' := disk'[path := file];
      }
      // a 429 or an exception: on the last turn there is no sleep and the result is False
      if attempt == n - 1 {
        NoDecisiveTurn(maxRetries, attempts);
        return;
      }
      sleeps := sleeps + 1;
      attempt := attempt + 1;
    }
    NoDecisiveTurn(maxRetries, attempts);
  }

  // ---------------------------------------------------------------------------
  // What the retry policy promises

  /** With `MAX_RETRIES` <= 0 the loop has no turn: no request, and False. */
  lemma NoBudgetNoRequest(maxRetries: int, attempts: seq<Attempt>)
    requires maxRetries <= 0
    ensures RequestCount(maxRetries, attempts) == 0 && !DownloadSucceeds(maxRetries, attempts)
  {
  }

  /** 429 on every turn: exactly `MAX_RETRIES` requests, and False (the last 429 falls
      out of the loop); the method then slept `MAX_RETRIES` - 1 times. */
  lemma AllRateLimited(maxRetries: int, attempts: seq<Attempt>)
    requires Budget(maxRetries) <= |attempts|
    requires forall j :: 0 <= j < Budget(maxRetries) ==> attempts[j].Response? && attempts[j].status == 429
    ensures RequestCount(maxRetries, attempts) == Budget(maxRetries)
    ensures !DownloadSucceeds(maxRetries, attempts)
  {
    NoDecisiveTurn(maxRetries, attempts);
  }

  /** The first 200 on turn k (counting from 0), after 429s and exceptions only: k + 1
      requests, True, and the archive holds that answer's chunks and nothing else,
      whatever an earlier failed turn had written there. */
  lemma FirstSuccessOnTurn(maxRetries: int, attempts: seq<Attempt>, k: nat, disk: Disk, path: string)
    requires Budget(maxRetries) <= |attempts| && k < Budget(maxRetries)
    requires forall j :: 0 <= j < k ==> !Decisive(attempts[j])
    requires attempts[k].Response? && attempts[k].status == 200
    ensures RequestCount(maxRetries, attempts) == k + 1
    ensures DownloadSucceeds(maxRetries, attempts)
    ensures AfterAttempts(disk, path, attempts[..k + 1])[path] == Concat(attempts[k].chunks)
  {
    StopsOnTurn(maxRetries, attempts, k);
    assert attempts[..k + 1][..k] == attempts[..k];
  }

  /** A status other than 200 and 429 on turn k ends the loop there: k + 1 requests, False. */
  lemma FatalStatusStops(maxRetries: int, attempts: seq<Attempt>, k: nat)
    requires Budget(maxRetries) <= |attempts| && k < Budget(maxRetries)
    requires forall j :: 0 <= j < k ==> !Decisive(attempts[j])
    requires attempts[k].Response? && attempts[k].status != 200 && attempts[k].status != 429
    ensures RequestCount(maxRetries, attempts) == k + 1
    ensures !DownloadSucceeds(maxRetries, attempts)
  {
    StopsOnTurn(maxRetries, attempts, k);
  }

  /** An exception is retried while turns remain: another request follows it. */
  lemma ExceptionRetried(maxRetries: int, attempts: seq<Attempt>, k: nat)
    requires Budget(maxRetries) <= |attempts| && k + 1 < Budget(maxRetries)
    requires forall j :: 0 <= j < k ==> !Decisive(attempts[j])
    requires attempts[k].Exception?
    ensures RequestCount(maxRetries, attempts) > k + 1
  {
    var n := Budget(maxRetries);
    var f := FirstDecisive(attempts[..n]);
    assert f != k by { assert !Decisive(attempts[..n][k]); }
  }

  /** Only a 200 answer makes the download succeed, and it is the last request made. */
  lemma SuccessIsLastRequest(maxRetries: int, attempts: seq<Attempt>)
    requires Budget(maxRetries) <= |attempts|
    requires DownloadSucceeds(maxRetries, attempts)
    ensures var k := RequestCount(maxRetries, attempts) - 1;
      0 <= k && attempts[k].Response? && attempts[k].status == 200
      && forall j :: 0 <= j < k ==> !Decisive(attempts[j])
  {
    var n := Budget(maxRetries);
    var k := FirstDecisive(attempts[..n]);
    assert forall j :: 0 <= j < k ==> attempts[..n][j] == attempts[j];
  }
}
