/** ui.py: the menu dispatch, the project-id prompt and the export flow (trigger, poll
    until a terminal status, look the project up, download, remove the cache file).
    What the user types and what the server answers are inputs: finite sequences for the
    two `while True` loops, which end in `Pending` when the sequence runs out first. */
module Ui {
  import opened Wrappers
  import opened Builtins
  import opened Projects
  import opened Progress
  import opened FileOperations
  import opened GitlabApi

  /** The settings config.py reads from config.yaml. */
  datatype Config = Config(gitlabUrl: string, outputDir: string, maxRetries: int)

  // ---------------------------------------------------------------------------
  // export_project

  const FinishedStatus: string := "finished"
  const FailedStatus: string := "failed"
  const NotFoundStatus: string := "none"

  /** A poll that ends the `while True` loop: an exception out of check_export_status, or
      one of the three terminal statuses. A failed poll (None) is not one of them, and
      neither is any other status. */
  predicate EndsPolling(s: Run<Option<string>>) {
    || s.Raise?
    || s == Return(Some(FinishedStatus))
    || s == Return(Some(FailedStatus))
    || s == Return(Some(NotFoundStatus))
  }

  /** The index of the first poll that ends the loop, `|polls|` when none does. */
  function FirstEnd(polls: seq<PollReply>): (k: nat)
    ensures k <= |polls|
    ensures forall j :: 0 <= j < k ==> !EndsPolling(CheckExportStatus(polls[j]))
    ensures k < |polls| ==> EndsPolling(CheckExportStatus(polls[k]))
  {
    if polls == [] then 0
    else if EndsPolling(CheckExportStatus(polls[0])) then 0
    else FirstEnd(polls[1..]) + 1
  }

  lemma FirstEndIs(polls: seq<PollReply>, k: nat)
    requires k <= |polls|
    requires forall j :: 0 <= j < k ==> !EndsPolling(CheckExportStatus(polls[j]))
    requires k < |polls| ==> EndsPolling(CheckExportStatus(polls[k]))
    ensures FirstEnd(polls) == k
  {
  }

  /** The export job was started, and the first poll that ended the loop said "finished". */
  predicate ReachesLookup(startStatus: int, polls: seq<PollReply>) {
    && StartExport(startStatus)
    && FirstEnd(polls) < |polls|
    && CheckExportStatus(polls[FirstEnd(polls)]) == Return(Some(FinishedStatus))
  }

  /** The export progress counter after `m` polls that did not end the loop: each adds 1
      while the counter is below 90. */
  function ProgressAfter(m: nat): (p: int)
    ensures 0 <= p <= 90
  {
    if m == 0 then 0
    else
      var q := ProgressAfter(m - 1);
      if q < 90 then q + 1 else q
  }

  /** The counter is the number of non-terminal polls, capped at 90. */
  lemma {:induction false} ProgressAfterIsCapped(m: nat)
    ensures ProgressAfter(m) == if m < 90 then m else 90
  {
    if m > 0 {
      ProgressAfterIsCapped(m - 1);
    }
  }

  /** The counter never goes down while polling, and "finished" (100) lies above every value. */
  lemma ProgressMonotone(m: nat, m': nat)
    requires m <= m'
    ensures ProgressAfter(m) <= ProgressAfter(m') < 100
  {
    ProgressAfterIsCapped(m);
    ProgressAfterIsCapped(m');
  }

  /** The clean-up after the download: the cache file is removed when the URL gives a path
      and the file exists; any exception, the IndexError of a URL without "://" included,
      is caught and leaves the cache as it was. */
  function RemoveCacheFile(url: string, cache: Store, removeFails: bool): (c: Store)
    ensures c.Keys <= cache.Keys
    ensures forall p :: p in c ==> c[p] == cache[p]
    ensures CachePath(url).Some? && !removeFails ==> CachePath(url).value !in c
    ensures CachePath(url).None? || removeFails ==> c == cache
    ensures CachePath(url).Some? ==> cache.Keys - c.Keys <= {CachePath(url).value}
  {
    match CachePath(url)
    case Some(path) => if removeFails || path !in cache then cache else cache - {path}
    case None => cache
  }

  /** export_project. `startStatus` answers the export POST, `polls` the status GETs in
      order, `downloads` the download turns; `removeFails` says removing the cache file
      raises (the error is caught and printed). Out: the return value, the number of
      polls, the export progress counter at the end, whether download_export was
      called, and the cache and archive files afterwards. */
  method ExportProject(cfg: Config, projectId: int, startStatus: int, polls: seq<PollReply>,
                       cache: Store, downloads: seq<Attempt>, disk: Disk, removeFails: bool)
    returns (r: Run<bool>, polled: nat, progress: int, downloaded: bool, cache': Store, disk': Disk)
    requires Budget(cfg.maxRetries) <= |downloads|
    // a refused export ends the flow before any poll
    ensures !StartExport(startStatus) ==>
      r == Return(false) && polled == 0 && progress == 0 && !downloaded
    // the loop polls until the first poll that ends it, and no further
    ensures StartExport(startStatus) ==>
      polled == if FirstEnd(polls) < |polls| then FirstEnd(polls) + 1 else |polls|
    ensures StartExport(startStatus) && FirstEnd(polls) == |polls| ==>
      r == Pending && progress == ProgressAfter(|polls|) && !downloaded
    ensures StartExport(startStatus) && FirstEnd(polls) < |polls| ==>
      var s := CheckExportStatus(polls[FirstEnd(polls)]);
      && progress == (if s == Return(Some(FinishedStatus)) then 100 else ProgressAfter(FirstEnd(polls)))
      && (s.Raise? ==> r == Raise(s.error) && !downloaded)
      && (s == Return(Some(FailedStatus)) || s == Return(Some(NotFoundStatus)) ==> r == Return(false) && !downloaded)
    // after "finished": the record is looked up, then downloaded, then the cache file removed
    ensures ReachesLookup(startStatus, polls) ==>
      var loaded := LoadProjectsFile(cfg.gitlabUrl, cache);
      && (loaded.Raise? ==> r == Raise(IndexError) && !downloaded)
      && (loaded == Return(None) ==> r == Return(false) && !downloaded)
      && (loaded.Return? && loaded.value.Some? ==>
            var found := FindRecord(loaded.value.value.projects, projectId);
            && (found.None? ==> r == Return(false) && !downloaded)
            && (found.Some? ==>
                  && downloaded
                  && r == Return(DownloadSucceeds(cfg.maxRetries, downloads))
                  && disk' == AfterAttempts(disk, ArchivePath(cfg.outputDir, projectId, found.value.name),
                                            downloads[..RequestCount(cfg.maxRetries, downloads)])
                  && cache' == RemoveCacheFile(cfg.gitlabUrl, cache, removeFails)))
    // files change only through the download and the clean-up after it
    ensures downloaded ==> ReachesLookup(startStatus, polls)
    ensures !downloaded ==> cache' == cache && disk' == disk
  {
    polled, progress, downloaded, cache', disk' := 0, 0, false, cache, disk;
    if !StartExport(startStatus) {
      return Return(false), polled, progress, downloaded, cache', disk';
    }
    var bar := new ProgressBar();
    var finished := false;
    while polled < |polls|
      invariant 0 <= polled <= |polls|
      invariant forall j :: 0 <= j < polled ==> !EndsPolling(CheckExportStatus(polls[j]))
      invariant bar.n == ProgressAfter(polled)
    {
      var status := CheckExportStatus(polls[polled]);
      polled := polled + 1;
      if status.Raise? {
        FirstEndIs(polls, polled - 1);
        return Raise(status.error), polled, bar.n, downloaded, cache', disk';
      }
      if status.value == Some(FinishedStatus) {
        bar.Update(100 - bar.n);
        finished := true;
        FirstEndIs(polls, polled - 1);
        break;
      } else if status.value == Some(FailedStatus) {
        FirstEndIs(polls, polled - 1);
        return Return(false), polled, bar.n, downloaded, cache', disk';
      } else if status.value == Some(NotFoundStatus) {
        FirstEndIs(polls, polled - 1);
        return Return(false), polled, bar.n, downloaded, cache', disk';
      }
      if bar.n < 90 {
        bar.Update(1);
      }
    }
    progress := bar.n;
    if !finished {
      FirstEndIs(polls, |polls|);
      return Pending, polled, progress, downloaded, cache', disk';
    }

    var info := GetProjectInfo(cfg.gitlabUrl, cache, projectId);
    if !info.Return? {
      return Raise(IndexError), polled, progress, downloaded, cache', disk';
    }
    if info.value.None? {
      return Return(false), polled, progress, downloaded, cache', disk';
    }

    var ok, archives, _, _, _ := DownloadExport(cfg.maxRetries, projectId, info.value.value,
                                                cfg.outputDir, downloads, disk);
    downloaded, disk' := true, archives;

    cache' := RemoveCacheFile(cfg.gitlabUrl, cache, removeFails);
    return Return(ok), polled, progress, downloaded, cache', disk';
  }

  // ---------------------------------------------------------------------------
  // select_project

  /** select_project up to its prompt. */
  datatype Listing = Listing(records: Run<Option<seq<Record>>>, store: Store)

  /** The listing select_project prompts with: the cached one; or, when there is none,
      the projects fetched and saved, read back from the cache. None where select_project
      returns None before prompting; the IndexError of loading escapes. */
  function ListingForPrompt(url: string, cache: Store, reply: ListReply, writeFails: bool): (l: Listing)
    ensures !l.records.Pending?
    ensures l.records.Raise? <==> Find(url, "://").None?
    ensures l.records.Raise? ==> l.records.error == IndexError && l.store == cache
    // a readable cache is used as it is, without a request
    ensures LoadProjectsFile(url, cache).Return? && LoadProjectsFile(url, cache).value.Some? ==>
      l == Listing(Return(Some(LoadProjectsFile(url, cache).value.value.projects)), cache)
    // otherwise the prompt lists exactly the fetched projects, or there is no prompt
    ensures LoadProjectsFile(url, cache) == Return(None) ==>
      var fetched := GetProjects(reply);
      if fetched.1 && !writeFails then
        l == Listing(Return(Some(Records(fetched.0.value))), SaveProjectsToFile(url, fetched.0.value, cache, writeFails).store)
      else
        l == Listing(Return(None), cache)
  {
    match LoadProjectsFile(url, cache)
    case Return(Some(doc)) => Listing(Return(Some(doc.projects)), cache)
    case Return(None) =>
      var (fetched, ok) := GetProjects(reply);
      if !ok then Listing(Return(None), cache)
      else
        var saved := SaveProjectsToFile(url, fetched.value, cache, writeFails);
        (match LoadProjectsFile(url, saved.store)
         case Return(Some(doc)) => Listing(Return(Some(doc.projects)), saved.store)
         case _ => Listing(Return(None), saved.store))
    case _ => Listing(Raise(IndexError), cache)
  }

  /** The answer `s` settles the id prompt: "0", or a number that is the id of a listed project. */
  predicate SettlesPrompt(records: seq<Record>, s: string): (b: bool)
    // every answer that settles the prompt holds a digit
    ensures b ==> exists i :: 0 <= i < |s| && IsDigit(s[i])
  {
    assert s == "0" ==> IsDigit(s[0]);
    s == "0" || (ParseInt(s).Some? && HasId(records, ParseInt(s).value))
  }

  /** A listed id, typed as the listing prints it, settles the prompt. */
  lemma PrintedIdSettles(records: seq<Record>, i: int)
    requires 0 <= i < |records|
    ensures SettlesPrompt(records, DecimalString(records[i].id))
  {
    ParseDecimal(records[i].id);
  }

  /** The index of the first answer that settles the prompt, `|inputs|` when none does. */
  function FirstSettling(records: seq<Record>, inputs: seq<string>): (k: nat)
    ensures k <= |inputs|
    ensures forall j :: 0 <= j < k ==> !SettlesPrompt(records, inputs[j])
    ensures k < |inputs| ==> SettlesPrompt(records, inputs[k])
  {
    if inputs == [] then 0
    else if SettlesPrompt(records, inputs[0]) then 0
    else FirstSettling(records, inputs[1..]) + 1
  }

  /** What the prompt gives back: None on "0", the id typed otherwise; the prompt
      catches every ValueError, so nothing is raised. */
  function PromptAnswer(records: seq<Record>, inputs: seq<string>): (r: Run<Option<int>>)
    ensures !r.Raise?
  {
    var k := FirstSettling(records, inputs);
    if k == |inputs| then Pending
    else if inputs[k] == "0" then Return(None)
    else Return(ParseInt(inputs[k]))
  }

  /** The prompt only ever returns the id of a listed project. */
  lemma PromptAnswerIsListed(records: seq<Record>, inputs: seq<string>)
    requires PromptAnswer(records, inputs).Return? && PromptAnswer(records, inputs).value.Some?
    ensures HasId(records, PromptAnswer(records, inputs).value.value)
  {
  }

  /** Typing back a listed id, after any number of answers that are neither "0" nor a
      listed id, selects that project. */
  lemma TypedIdSelects(records: seq<Record>, inputs: seq<string>, k: nat)
    requires k < |inputs| && 0 <= k
    requires forall j :: 0 <= j < k ==> !SettlesPrompt(records, inputs[j])
    requires exists i :: 0 <= i < |records| && inputs[k] == DecimalString(records[i].id)
    ensures inputs[k] != "0" ==> PromptAnswer(records, inputs) == Return(ParseInt(inputs[k]))
    ensures PromptAnswer(records, inputs).Return?
  {
    var i :| 0 <= i < |records| && inputs[k] == DecimalString(records[i].id);
    PrintedIdSettles(records, i);
    assert FirstSettling(records, inputs) == k;
  }

  /** An answer that settles the prompt, with none before it, is the one the prompt returns. */
  lemma SettlesAt(records: seq<Record>, inputs: seq<string>, k: nat)
    requires k < |inputs| && k <= FirstSettling(records, inputs)
    requires SettlesPrompt(records, inputs[k])
    ensures FirstSettling(records, inputs) == k
    ensures PromptAnswer(records, inputs) == if inputs[k] == "0" then Return(None) else Return(ParseInt(inputs[k]))
  {
  }

  /** An answer that does not settle the prompt is followed by another question. */
  lemma AsksAgain(records: seq<Record>, inputs: seq<string>, k: nat)
    requires k < |inputs| && k <= FirstSettling(records, inputs)
    requires !SettlesPrompt(records, inputs[k])
    ensures k + 1 <= FirstSettling(records, inputs)
  {
  }

  /** The `while True` prompt of select_project; `consumed` counts the answers read. */
  method PromptForId(records: seq<Record>, inputs: seq<string>) returns (r: Run<Option<int>>, consumed: nat)
    ensures r == PromptAnswer(records, inputs)
    ensures consumed == if r.Pending? then |inputs| else FirstSettling(records, inputs) + 1
  {
    consumed := 0;
    while consumed < |inputs|
      invariant consumed <= FirstSettling(records, inputs)
    {
      var answer := inputs[consumed];
      consumed := consumed + 1;
      if answer == "0" {
        SettlesAt(records, inputs, consumed - 1);
        return Return(None), consumed;
      }
      var id := ParseInt(answer);
      if id.Some? && HasId(records, id.value) {
        SettlesAt(records, inputs, consumed - 1);
        return Return(id), consumed;
      }
      AsksAgain(records, inputs, consumed - 1);
    }
    return Pending, consumed;
  }

  /** select_project: the listing, then the prompt. */
  method SelectProject(url: string, cache: Store, reply: ListReply, writeFails: bool, inputs: seq<string>)
    returns (r: Run<Option<int>>, cache': Store)
    ensures var l := ListingForPrompt(url, cache, reply, writeFails);
      && cache' == l.store
      && (l.records.Return? && l.records.value.Some? ==> r == PromptAnswer(l.records.value.value, inputs))
      && (l.records == Return(None) ==> r == Return(None))
      && (!l.records.Return? ==> r == Raise(IndexError))
  {
    var l := ListingForPrompt(url, cache, reply, writeFails);
    cache' := l.store;
    if !l.records.Return? {
      return Raise(IndexError), cache';
    }
    if l.records.value.None? {
      return Return(None), cache';
    }
    var consumed;
    r, consumed := PromptForId(l.records.value.value, inputs);
  }

  // ---------------------------------------------------------------------------
  // handle_menu_choice

  /** What the user and the server answer during one menu choice. */
  datatype Session = Session(
    listReply: ListReply,        // the project-list request (choice 1, or the fetch of choice 2)
    saveAnswer: string,          // the answer to "save the list to a local file? (y/n)"
    writeFails: bool,            // saving the list raises
    idInputs: seq<string>,       // the answers to the project-id prompt
    startStatus: int,            // the status of the export POST
    polls: seq<PollReply>,       // the export-status answers, one per poll
    downloads: seq<Attempt>,     // the download turns
    removeFails: bool)           // removing the cache file raises

  /** `answer.lower() == 'y'`: the answers that count as a yes are exactly "y" and "Y". */
  predicate LowersToY(answer: string): (yes: bool)
    ensures yes <==> answer == "y" || answer == "Y"
  {
    Lower(answer) == "y"
  }

  /** What one menu choice gives: the main loop's "keep going", and the cache and archive
      files afterwards. */
  datatype MenuStep = MenuStep(result: Run<bool>, cache: Store, disk: Disk)

  /** The outcome of the `if project_id:` branch of handle_menu_choice for the id
      `projectId`: export_project's own outcome, where a True or False return and a caught
      ValueError all let the menu go on. */
  function ExportOutcome(cfg: Config, projectId: int, session: Session, cache: Store, disk: Disk): (e: MenuStep)
    requires Budget(cfg.maxRetries) <= |session.downloads|
    ensures e.result != Return(false)
    ensures e.result.Raise? ==> e.result.error != ValueError
    ensures e.result.Pending? <==> StartExport(session.startStatus) && FirstEnd(session.polls) == |session.polls|
    ensures e.cache != cache || e.disk != disk ==> ReachesLookup(session.startStatus, session.polls)
    ensures e.cache.Keys <= cache.Keys
  {
    var polls := session.polls;
    if !StartExport(session.startStatus) then MenuStep(Return(true), cache, disk)
    else if FirstEnd(polls) == |polls| then MenuStep(Pending, cache, disk)
    else PollEndOutcome(cfg, projectId, session, CheckExportStatus(polls[FirstEnd(polls)]), cache, disk)
  }

  /** The rest of that branch from the poll `s` that ended the loop: an exception (only a
      ValueError is caught), "failed" or "none" (False), or "finished", which goes on to
      the lookup. */
  function PollEndOutcome(cfg: Config, projectId: int, session: Session, s: Run<Option<string>>,
                          cache: Store, disk: Disk): (e: MenuStep)
    requires Budget(cfg.maxRetries) <= |session.downloads|
    ensures e.result != Return(false) && !e.result.Pending?
    ensures e.result.Raise? ==> e.result.error != ValueError
    ensures e.cache != cache || e.disk != disk ==> s == Return(Some(FinishedStatus))
    ensures e.cache.Keys <= cache.Keys
    // only the ValueError of `except ValueError` is caught; any other error escapes
    ensures s.Raise? ==> e == MenuStep(if s.error == ValueError then Return(true) else Raise(s.error), cache, disk)
    // "failed" and "none" make export_project return False, and the menu goes on
    ensures s.Return? && s != Return(Some(FinishedStatus)) ==> e == MenuStep(Return(true), cache, disk)
  {
    if s.Raise? then MenuStep(if s.error == ValueError then Return(true) else Raise(s.error), cache, disk)
    else if s != Return(Some(FinishedStatus)) then MenuStep(Return(true), cache, disk)
    else LookupOutcome(cfg, projectId, session, cache, disk)
  }

  /** The rest of that branch once the export has finished: get_project_info, whose
      IndexError escapes; then, for a cached record of the project, download_export and the
      removal of the cache file. */
  function LookupOutcome(cfg: Config, projectId: int, session: Session, cache: Store, disk: Disk): (e: MenuStep)
    requires Budget(cfg.maxRetries) <= |session.downloads|
    ensures e.result == Return(true) || e.result == Raise(IndexError)
    ensures e.result.Raise? <==> Find(cfg.gitlabUrl, "://").None?
    ensures e.cache.Keys <= cache.Keys
    // the files change only for a project found in the cache file
    ensures e.cache != cache || e.disk != disk ==>
      var loaded := LoadProjectsFile(cfg.gitlabUrl, cache);
      loaded.Return? && loaded.value.Some? && HasId(loaded.value.value.projects, projectId)
  {
    var loaded := LoadProjectsFile(cfg.gitlabUrl, cache);
    if loaded.Raise? then MenuStep(Raise(IndexError), cache, disk)
    else if loaded.value.None? then MenuStep(Return(true), cache, disk)
    else
      var found := FindRecord(loaded.value.value.projects, projectId);
      if found.None? then MenuStep(Return(true), cache, disk)
      else
        var downloads := session.downloads[..RequestCount(cfg.maxRetries, session.downloads)];
        MenuStep(Return(true), RemoveCacheFile(cfg.gitlabUrl, cache, session.removeFails),
                 AfterAttempts(disk, ArchivePath(cfg.outputDir, projectId, found.value.name), downloads))
  }

  /** The `if project_id:` branch of handle_menu_choice: export_project inside a `try`
      whose `except ValueError` reports a bad id. Either outcome of the export prints a
      message and the menu goes on; only the errors the `try` does not catch escape. */
  method ExportChosen(cfg: Config, projectId: int, session: Session, cache: Store, disk: Disk)
    returns (r: Run<bool>, cache': Store, disk': Disk)
    requires Budget(cfg.maxRetries) <= |session.downloads|
    ensures r == Return(true) || r == Pending || (r.Raise? && r.error != ValueError)
    // polls that run out leave the export pending
    ensures StartExport(session.startStatus) && FirstEnd(session.polls) == |session.polls| ==>
      r == Pending && cache' == cache && disk' == disk
    // an exception out of a poll: the ValueError of a non-JSON body is caught, the rest escape
    ensures StartExport(session.startStatus) && FirstEnd(session.polls) < |session.polls| ==>
      var s := CheckExportStatus(session.polls[FirstEnd(session.polls)]);
      && (s.Raise? ==> r == (if s.error == ValueError then Return(true) else Raise(s.error)) && cache' == cache && disk' == disk)
      && (s == Return(Some(FailedStatus)) || s == Return(Some(NotFoundStatus)) ==>
            r == Return(true) && cache' == cache && disk' == disk)
    // after "finished": a URL without "://" raises out of the lookup; a found record is
    // downloaded and the cache file removed
    ensures ReachesLookup(session.startStatus, session.polls) ==>
      var loaded := LoadProjectsFile(cfg.gitlabUrl, cache);
      && (loaded.Raise? ==> r == Raise(IndexError) && cache' == cache && disk' == disk)
      && (loaded == Return(None) ==> r == Return(true) && cache' == cache && disk' == disk)
      && (loaded.Return? && loaded.value.Some? && FindRecord(loaded.value.value.projects, projectId).None? ==>
            r == Return(true) && cache' == cache && disk' == disk)
      && (loaded.Return? && loaded.value.Some? && FindRecord(loaded.value.value.projects, projectId).Some? ==>
            && r == Return(true)
            && cache' == RemoveCacheFile(cfg.gitlabUrl, cache, session.removeFails)
            && disk' == AfterAttempts(disk, ArchivePath(cfg.outputDir, projectId,
                                                        FindRecord(loaded.value.value.projects, projectId).value.name),
                                      session.downloads[..RequestCount(cfg.maxRetries, session.downloads)]))
    // a refused export changes nothing
    ensures !StartExport(session.startStatus) ==> r == Return(true) && cache' == cache && disk' == disk
    // the files change only once the export has finished
    ensures cache' != cache || disk' != disk ==> ReachesLookup(session.startStatus, session.polls)
    ensures MenuStep(r, cache', disk') == ExportOutcome(cfg, projectId, session, cache, disk)
  {
    var exported, _, _, downloaded, cacheAfter, diskAfter := ExportProject(cfg, projectId,
      session.startStatus, session.polls, cache, session.downloads, disk, session.removeFails);
    cache', disk' := cacheAfter, diskAfter;
    if exported.Pending? {
      return Pending, cache', disk';
    }
    if exported.Raise? && exported.error != ValueError {
      return Raise(exported.error), cache', disk';
    }
    return Return(true), cache', disk';
  }

  /** The outcome of the "2" branch of handle_menu_choice: select_project, then the export
      of the chosen project unless the prompt gave None or the id 0 (`if project_id:`). */
  function ExportChoice(cfg: Config, session: Session, cache: Store, disk: Disk): (e: MenuStep)
    requires Budget(cfg.maxRetries) <= |session.downloads|
    ensures e.result != Return(false)
    ensures e.result.Raise? ==> e.result.error != ValueError
    // the archives change only when a listed project was chosen and its export finished
    ensures e.disk != disk ==>
      var l := ListingForPrompt(cfg.gitlabUrl, cache, session.listReply, session.writeFails);
      && l.records.Return? && l.records.value.Some?
      && PromptAnswer(l.records.value.value, session.idInputs).Return?
      && PromptAnswer(l.records.value.value, session.idInputs).value.Some?
      && HasId(l.records.value.value, PromptAnswer(l.records.value.value, session.idInputs).value.value)
      && ReachesLookup(session.startStatus, session.polls)
  {
    var l := ListingForPrompt(cfg.gitlabUrl, cache, session.listReply, session.writeFails);
    if !l.records.Return? then MenuStep(Raise(IndexError), l.store, disk)
    else if l.records.value.None? then MenuStep(Return(true), l.store, disk)
    else
      var answer := PromptAnswer(l.records.value.value, session.idInputs);
      if answer.Pending? then MenuStep(Pending, l.store, disk)
      else if answer.value.None? || answer.value.value == 0 then MenuStep(Return(true), l.store, disk)
      else
        PromptAnswerIsListed(l.records.value.value, session.idInputs);
        ExportOutcome(cfg, answer.value.value, session, l.store, disk)
  }

  /** The "2" branch of handle_menu_choice. The menu goes on whatever the export returns;
      the archives change only when a project was chosen. */
  method ChooseAndExport(cfg: Config, session: Session, cache: Store, disk: Disk)
    returns (r: Run<bool>, cache': Store, disk': Disk)
    requires Budget(cfg.maxRetries) <= |session.downloads|
    ensures MenuStep(r, cache', disk') == ExportChoice(cfg, session, cache, disk)
    ensures r != Return(false)
    ensures r.Raise? ==> r.error != ValueError
    ensures var l := ListingForPrompt(cfg.gitlabUrl, cache, session.listReply, session.writeFails);
      && (!l.records.Return? ==> r == Raise(IndexError) && cache' == cache && disk' == disk)
      && (l.records == Return(None) ==> r == Return(true) && cache' == l.store && disk' == disk)
      && (l.records.Return? && l.records.value.Some? ==>
            var answer := PromptAnswer(l.records.value.value, session.idInputs);
            && (answer.Pending? ==> r == Pending && cache' == l.store && disk' == disk)
            && (answer == Return(None) ==> r == Return(true) && cache' == l.store && disk' == disk)
            && (answer == Return(Some(0)) ==> r == Return(true) && cache' == l.store && disk' == disk)
            && (answer.Return? && answer.value.Some? && answer.value.value != 0 ==>
                  MenuStep(r, cache', disk') == ExportOutcome(cfg, answer.value.value, session, l.store, disk)))
  {
    var selected;
    selected, cache' := SelectProject(cfg.gitlabUrl, cache, session.listReply, session.writeFails, session.idInputs);
    disk' := disk;
    if selected.Raise? {
      return Raise(selected.error), cache', disk';
    }
    if selected.Pending? {
      return Pending, cache', disk';
    }
    if selected.value.Some? && selected.value.value != 0 {
      r, cache', disk' := ExportChosen(cfg, selected.value.value, session, cache', disk');
      return r, cache', disk';
    }
    return Return(true), cache', disk';
  }

  /** handle_menu_choice: "1" lists (and on request saves) the projects, "2" selects and
      exports one, "0" quits; anything else is reported as invalid. The result is the
      main loop's "keep going". */
  method HandleMenuChoice(cfg: Config, choice: string, session: Session, cache: Store, disk: Disk)
    returns (r: Run<bool>, cache': Store, disk': Disk)
    requires Budget(cfg.maxRetries) <= |session.downloads|
    // only "0" stops the menu loop
    ensures r == Return(false) <==> choice == "0"
    ensures choice != "1" && choice != "2" ==> r == Return(choice != "0") && cache' == cache && disk' == disk
    ensures choice == "1" ==>
      && r == Return(true) && disk' == disk
      && var fetched := GetProjects(session.listReply);
         cache' == if fetched.1 && LowersToY(session.saveAnswer)
                   then SaveProjectsToFile(cfg.gitlabUrl, fetched.0.value, cache, session.writeFails).store
                   else cache
    // the export's ValueError is caught: only IndexError and AttributeError escape, and only from choice "2"
    ensures r.Raise? ==> choice == "2" && r.error != ValueError
    ensures choice == "2" ==> MenuStep(r, cache', disk') == ExportChoice(cfg, session, cache, disk)
  {
    cache', disk' := cache, disk;
    if choice == "1" {
      var (projects, success) := GetProjects(session.listReply);
      if success && LowersToY(session.saveAnswer) {
        cache' := SaveProjectsToFile(cfg.gitlabUrl, projects.value, cache, session.writeFails).store;
      }
    } else if choice == "2" {
      r, cache', disk' := ChooseAndExport(cfg, session, cache, disk);
      return r, cache', disk';
    } else if choice == "0" {
      return Return(false), cache', disk';
    }
    return Return(true), cache', disk';
  }
}
