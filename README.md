# gitlab_backup: the export and download workflow, in Dafny

gitlab_backup lists the projects of a self-hosted GitLab server and exports one of them
as a `.tar.gz` archive. This project models its logic in Dafny, with three parts:

- **The API calls** (`gitlab_api.py`, module `GitlabApi`). Each answer is classified:
  the project list, the export trigger (202 only) and the export status. The archive
  download retries up to `MAX_RETRIES` times. A 429 answer and an exception are retried
  after a sleep. Any other status ends the download at once.
- **The export flow and the menu** (`ui.py`, module `Ui`). The flow triggers the export,
  then polls until a terminal status while a progress counter climbs to 90. On
  `"finished"` the counter jumps to 100. The flow then looks the project up in the cache,
  downloads the archive, and removes the project-list cache file. The module also
  models the project-id prompt and the menu dispatch.
- **The project-list cache** (`file_operations.py`, module `FileOperations`). This covers
  the cache path derived from the base URL, the record each project is saved as, save
  and load, the first-match lookup, and the file-name filter.

Network answers, user input and the file system are inputs:
- `Attempt`, `PollReply`, `ListReply` and plain status codes stand for what `requests`
  gives back.
- Finite sequences stand for what the user types.
- Maps stand for the files: `Store` maps a path to a cache entry, and `Disk` maps a path
  to archive bytes.

Every operation returns the new maps, so nothing is updated in place. The only object
is tqdm's progress counter (`Progress.ProgressBar`). The download and the export flow
allocate and move it, as the source does.

Python exceptions that escape a call are part of the result type
`Run<T> = Return | Raise | Pending`. `Pending` means a `while True` loop (the status
poll or the id prompt) used up the finite input it was given.

Behaviour of the code worth noting:
- The cache file is removed after every download attempt, whatever its outcome, not
  only after a successful export (`ui.py:118-131`).
- A non-200, non-429 download answer ends the download at once and is never retried
  (`gitlab_api.py:95-97`).
- A poll that fails with a non-200 status keeps the loop going. A poll whose 200 body
  does not decode raises ValueError. `handle_menu_choice`'s `except ValueError` catches
  it and prints the "enter a numeric id" message (`ui.py:35-36`). A body that is JSON
  but not an object raises AttributeError, which nothing catches.
- `MAX_RETRIES` <= 0 is allowed: the loop then makes no request and returns False.
- `os.path.join` is POSIX `posixpath.join`. So a domain beginning with `/` makes the
  cache path `<domain>.yaml` rather than `projects/<domain>.yaml`.
- `GITLAB_URL.split('://')[1]` raises IndexError on a URL without `://`. Saving and the
  clean-up catch it. Loading does not, so it escapes `get_project_info` and
  `select_project`.

## Model

| member | source | states |
|---|---|---|
| `GitlabApi.GetProjects` | gitlab_api.py:7-40 | `(projects, True)` exactly on a 200 answer whose body decodes, with the decoded list; `(None, False)` on every other status and on any exception |
| `GitlabApi.StartExport` | gitlab_api.py:42-53 | the export counts as started iff the POST answered 202 |
| `GitlabApi.CheckExportStatus` | gitlab_api.py:55-64 | a 200 answer whose body is an object gives exactly that body's `export_status` (None when absent); None for every other status; a 200 body that is not JSON raises ValueError, one that is not an object AttributeError |
| `GitlabApi.FirstDecisive` | gitlab_api.py:78-97 | the first download answer that ends the loop (200 or a status other than 429); all earlier turns were 429s or exceptions |
| `GitlabApi.StreamToFile` | gitlab_api.py:81-86 | after the `'wb'` open the file holds exactly the concatenation of the streamed chunks, and the progress bar counts exactly that many bytes |
| `GitlabApi.StopsOnTurn` | gitlab_api.py:78-97 | a 200 or a status other than 429 on turn k, after only 429s and exceptions, ends the loop there: k + 1 requests, True exactly on 200 |
| `GitlabApi.NoDecisiveTurn` | gitlab_api.py:90-106 | when every turn is a 429 or an exception, all `MAX_RETRIES` turns are used and the result is False |
| `GitlabApi.DownloadTo` | gitlab_api.py:75-106 | the retry loop on a given path: requests = first decisive turn + 1, or `MAX_RETRIES` when there is none; sleeps = requests - 1; True iff that turn answered 200; the file then holds exactly that answer's chunks and `reported` is its size; `reported` is 0 on False |
| `GitlabApi.DownloadExport` | gitlab_api.py:66-106 | requests = first decisive turn + 1, or `MAX_RETRIES` when there is none, never more than `MAX_RETRIES`; sleeps = requests - 1; True iff that turn answered 200; the archive `output_dir/{id}_{name}.tar.gz` then holds exactly that answer's chunks and the bar shows its size; the disk is what the turns made left there |
| `GitlabApi.NoBudgetNoRequest` | gitlab_api.py:75 | with `MAX_RETRIES` <= 0: no request, result False |
| `GitlabApi.AllRateLimited` | gitlab_api.py:90-94 | 429 on every turn: exactly `MAX_RETRIES` requests and False; the last 429 falls out of the loop |
| `GitlabApi.FirstSuccessOnTurn` | gitlab_api.py:78-89 | the first 200 on turn k after only 429s and exceptions: k + 1 requests, True, and the archive holds that answer's chunks whatever an earlier failed turn wrote |
| `GitlabApi.FatalStatusStops` | gitlab_api.py:95-97 | a status other than 200 and 429 ends the loop on its turn with False: no later request |
| `GitlabApi.ExceptionRetried` | gitlab_api.py:98-104 | an exception on a turn that is not the last is followed by another request |
| `GitlabApi.SuccessIsLastRequest` | gitlab_api.py:78-89 | a successful download's last request answered 200, after only 429s and exceptions |
| `Progress.ProgressBar.Update` | gitlab_api.py:86 | `pbar.update(k)` moves the counter by k |
| `Ui.FirstEnd` | ui.py:96-106 | the first poll that ends the loop: an exception, `"finished"`, `"failed"` or `"none"`; a failed poll (None) and any other status do not |
| `Ui.ProgressAfter` | ui.py:108-110 | the export counter after m non-terminal polls stays within 0..90 |
| `Ui.ProgressAfterIsCapped` | ui.py:109-110 | after m non-terminal polls the counter is min(m, 90): one step per poll while below 90 |
| `Ui.ProgressMonotone` | ui.py:95-110 | the counter never decreases while polling and stays below the 100 that `"finished"` sets |
| `Ui.RemoveCacheFile` | ui.py:120-129 | removes only the cache file derived from the URL, and only when removal does not raise; a URL without `://` leaves the cache as it was; every other file is untouched |
| `Ui.ExportProject` | ui.py:87-131 | a refused trigger returns False with no poll; polling stops exactly at the first terminal poll; the counter is 100 iff that poll said `"finished"`, otherwise min(non-terminal polls, 90); `"failed"` and `"none"` return False; after `"finished"` a missing record returns False; download runs only after `"finished"` and a found record; after it the cache file is removed as `RemoveCacheFile` states; the result is the download's; without a download no file changes |
| `Ui.ListingForPrompt` | ui.py:46-59 | a readable cache is listed as it is; otherwise the projects are fetched, saved and listed exactly as fetched; if fetching or saving fails there is no prompt (None) |
| `Ui.FirstSettling` | ui.py:72-85 | the first answer that ends the prompt: `"0"` or the number of a listed id; earlier answers were neither |
| `Ui.PromptAnswerIsListed` | ui.py:80-81 | the prompt only ever returns an id that is in the listing |
| `Ui.TypedIdSelects` | ui.py:78-81 | a listed id typed back as printed, after answers that did not settle the prompt, is accepted |
| `Ui.SettlesPrompt` | ui.py:75-81 | an answer that ends the prompt always holds a digit |
| `Ui.PrintedIdSettles` | ui.py:75-81 | a listed id typed as the listing prints it ends the prompt |
| `Ui.PromptAnswer` | ui.py:72-85 | the prompt never raises: every ValueError of `int()` is caught and the question asked again |
| `Ui.LowersToY` | ui.py:25 | `answer.lower() == 'y'` holds exactly for `"y"` and `"Y"` |
| `Ui.SettlesAt` | ui.py:72-81 | the first answer that is `"0"` or a listed id ends the prompt: None for `"0"`, the parsed id otherwise |
| `Ui.AsksAgain` | ui.py:82-85 | an answer that is neither `"0"` nor a listed id is followed by another question |
| `Ui.PromptForId` | ui.py:72-85 | reads answers until the first that settles the prompt: None on `"0"`, the parsed id on a listed id; non-numbers and unlisted ids are asked again |
| `Ui.SelectProject` | ui.py:44-85 | the listing, then the prompt over it; None when there is no listing; the IndexError of loading escapes |
| `Ui.ExportOutcome` | ui.py:87-131 | what the `if project_id:` branch yields for an id: never False, never a ValueError; `Pending` exactly when the export started and the polls ran out; the files change only after `"finished"`, and the cache only loses files |
| `Ui.PollEndOutcome` | ui.py:96-106 | from the poll that ended the loop: a raised ValueError is caught (True), AttributeError escapes; `"failed"` and `"none"` give True with no change; only `"finished"` can change files |
| `Ui.LookupOutcome` | ui.py:113-131 | after `"finished"`: True or IndexError, IndexError exactly for a URL without `://`; files change only for a project found in the cache file; the cache only loses files |
| `Ui.ExportChosen` | ui.py:29-36 | the chosen project's export inside `try`/`except ValueError`, equal to `ExportOutcome`: polls that run out give `Pending`; a raising poll gives True for ValueError and passes any other error on; `"failed"`/`"none"` give True; loading's IndexError escapes; no cache or no record gives True; a found record gives True with the archive written as the download turns leave it and the cache file removed as `RemoveCacheFile` states; a refused export changes no file; files change only after `"finished"` |
| `Ui.ExportChoice` | ui.py:27-36 | the outcome of choice `"2"`: never False, never a ValueError; the archives change only when the prompt returned an id that is listed and that project's export finished |
| `Ui.ChooseAndExport` | ui.py:27-36 | choice `"2"`, equal to `ExportChoice`: no listing gives True with no archive change; the prompt's `"0"` or the id 0 gives True; a pending prompt is `Pending`; loading's IndexError escapes; a nonzero chosen id gives exactly `ExportOutcome` for that id over the listed cache; never False, never a ValueError |
| `Ui.HandleMenuChoice` | ui.py:20-42 | returns False iff the choice is `"0"`; an unknown choice changes nothing and returns True; `"1"` saves the fetched list exactly when fetching succeeded and the answer is `y` or `Y`; only choice `"2"` can raise, and never ValueError; `"2"` gives exactly `ExportChoice` |
| `FileOperations.CleanFilename` | file_operations.py:11-14 | the result contains only `\w`, `-` and `.`, is never longer, and keeps every such character of the input as often as it occurs |
| `FileOperations.CleanIsSubsequence` | file_operations.py:14 | the result is a subsequence of the input |
| `FileOperations.CleanOfClean` | file_operations.py:14 | an already clean name comes back unchanged |
| `FileOperations.CleanIdempotent` | file_operations.py:14 | cleaning twice is cleaning once |
| `FileOperations.CacheDomain` | file_operations.py:24 | defined iff the URL contains `://`; exactly the text `split('://')[1]` gives, of the same length, with every `:` replaced by `_` and every other character kept |
| `FileOperations.CachePath` | file_operations.py:24-26 | `projects/<domain>.yaml`, or `<domain>.yaml` when the domain starts with `/` |
| `FileOperations.ToRecord` | file_operations.py:32-38 | id, name and path copied, namespace is the namespace's name, a missing `last_activity_at` becomes "未知" |
| `FileOperations.Records` | file_operations.py:31-40 | one record per project, in input order |
| `FileOperations.SaveProjectsToFile` | file_operations.py:16-51 | True iff the URL has `://` and nothing raises; then the cache path holds the URL and the records, and nothing else changes; on False nothing changes |
| `FileOperations.LoadProjectsFile` | file_operations.py:53-71 | None when the file is absent or unreadable; the stored listing otherwise; IndexError escapes for a URL without `://` |
| `FileOperations.SaveThenLoad` | file_operations.py:24-68 | loading after a successful save gives back exactly the saved URL and records |
| `FileOperations.SavedIdsFound` | file_operations.py:29-41 | after a successful save, every saved project's id is found in the loaded listing |
| `FileOperations.FindRecord` | file_operations.py:79-82 | a record iff some record has the id, and then the first such record |
| `FileOperations.GetProjectInfo` | file_operations.py:73-82 | the first cached record with the id; None when the cache is missing, unreadable or has no match; IndexError when loading raises it |
| `Builtins.SplitSecond` | file_operations.py:24 | `split('://')[1]`: defined iff `://` occurs; a prefix of the text after the first `://`, containing no `://`, ending at the next one or at the end |
| `Builtins.ReplaceChar` | file_operations.py:24 | same length; every occurrence of the old character becomes the new one, every other character is kept, and the old one no longer occurs |
| `Builtins.JoinPath` | gitlab_api.py:73 | `posixpath.join`: the result ends with the file name; an absolute name replaces the directory; otherwise the directory is a prefix, and one `/` is inserted after it exactly when it is non-empty and does not already end in `/` |
| `Builtins.ParseInt` | ui.py:78 | `int(s)` in base 10: a number only when `s` holds a digit, and a negative one only when `s` holds a `-` |
| `Builtins.Strip` | ui.py:78 | the whitespace `int()` skips: the result is a slice of the input with only whitespace before and after it, and it neither starts nor ends with whitespace |
| `Builtins.DecimalString` | gitlab_api.py:72 | `str(n)`: non-empty, a `-` first exactly for a negative number, digits otherwise, `"0"` exactly for 0, and no leading zero |
| `Builtins.Digits` | gitlab_api.py:72 | the decimal digits of a natural number: one digit exactly below 10, all characters digits, no leading zero |
| `Builtins.Lower` | ui.py:25 | `str.lower()` character by character, of the same length |
| `GitlabApi.ArchivePath` | gitlab_api.py:72-73 | `{id}_{name}.tar.gz` joined under the output directory: the directory is a prefix, the file name the suffix, with one `/` between them unless the directory is empty or ends in `/` |
| `Builtins.ParseDecimal` | ui.py:78 | `int(str(n)) == n`: an id typed as it is printed parses back to that id |

## Left out

- Printed text, the menu display (`show_menu`) and prompt wording are left out. They only write to the terminal.
- main.py is left out. Its helpers duplicate those modelled here, and its `main` loop only repeats `handle_menu_choice` until it returns False.
- config.py is left out: it only reads config.yaml. Its settings are the `Config` parameter.
- utils.py (the SIGINT handler that exits the process) is left out: it is process control.
- `time.sleep` durations are left out. Sleeps are counted, not timed.
- tqdm is reduced to its counter. The download bar's `total` comes from `content-length` and only affects the display, so it is not modelled. A `content-length` that does not parse is an `Exception(None)` turn, like a failed request.
- `ensure_output_dir` (the `mkdir` of the output directory) is not modelled.
- YAML serialisation is not modelled. A cache file is either a listing this program wrote or `Unreadable`. A dump that raises halfway and leaves a partial file is not modelled: `writeFails` leaves the file as it was.
- An exception from `requests.post` in `start_export`, or from `requests.get` in `check_export_status`, is not modelled. The source does not catch either one. The model assumes these two calls always get an answer.
- An API project object is assumed to carry `id`, `name`, `path` and `namespace.name`. A missing key would raise KeyError, which `save_projects_to_file` and `get_projects` catch; that case is not modelled.
- A project-list body is either a list of projects or undecodable. A JSON body of another shape is not modelled.
- A cached document without a `projects` key is not modelled. It would raise KeyError in `get_project_info`.
- An `export_status` value that is not a string is represented as a string other than the three terminal ones. The source compares it in the same way.
- Python's Unicode `\w` is a parameter `isWord` of `CleanFilename`, so every property holds for any meaning of `\w`.
- `int()` is modelled for ASCII only: ASCII digits, ASCII whitespace and underscores between digits. Non-ASCII digits and whitespace are not modelled. Neither is the limit on the number of digits `int()` accepts.
- `str.lower()` folds ASCII capitals only. No other character lower-cases to `y`, so `LowersToY` is exact.
- The poll loop and the id prompt are unbounded `while True` loops. They are modelled over a finite prefix of answers and end in `Pending` when the prefix runs out. Their termination is not modelled.
- Paths follow POSIX `os.path.join`. Windows path rules are not modelled.
- An interrupt during a download is not modelled. A partial archive left behind by it is not modelled either.
- DownloadExport, DownloadTo: `reported` is the byte count of a successful turn's progress bar. The bar of a turn that raised mid-stream is discarded and not reported.
