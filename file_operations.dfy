/** file_operations.py: the file-name filter, the project-list cache (its path, what is
    saved, what is loaded back) and the lookup of one project in it. The file system is
    a `Store`: a map from path to what the file at that path holds. */
module FileOperations {
  import opened Wrappers
  import opened Builtins
  import opened Projects

  // ---------------------------------------------------------------------------
  // clean_filename

  /** The class `[\w\-\.]`; `isWord` stands for Python's Unicode `\w`, left open. */
  predicate Allowed(isWord: char -> bool, c: char) {
    isWord(c) || c == '-' || c == '.'
  }

  /** `re.sub(r'[^\w\-\.]', '', s)`: every character outside the class is dropped. */
  function CleanFilename(isWord: char -> bool, s: string): (r: string)
    ensures |r| <= |s|
    ensures forall i :: 0 <= i < |r| ==> Allowed(isWord, r[i])
    ensures forall c :: Allowed(isWord, c) ==> multiset(r)[c] == multiset(s)[c]
    decreases |s|
  {
    if s == [] then []
    else
      assert s == [s[0]] + s[1..];
      (if Allowed(isWord, s[0]) then [s[0]] else []) + CleanFilename(isWord, s[1..])
  }

  /** `a` is `b` with some characters removed, the rest kept in order. */
  predicate IsSubsequence(a: string, b: string)
    decreases |b|
  {
    || a == []
    || (b != [] && if a[0] == b[0] then IsSubsequence(a[1..], b[1..]) else IsSubsequence(a, b[1..]))
  }

  lemma {:induction false} CleanIsSubsequence(isWord: char -> bool, s: string)
    ensures IsSubsequence(CleanFilename(isWord, s), s)
    decreases |s|
  {
    if s != [] {
      CleanIsSubsequence(isWord, s[1..]);
      var r := CleanFilename(isWord, s);
      if Allowed(isWord, s[0]) {
        assert r[0] == s[0] && r[1..] == CleanFilename(isWord, s[1..]);
      } else {
        assert r == CleanFilename(isWord, s[1..]);
        assert r != [] ==> r[0] != s[0];
      }
    }
  }

  /** A name that is already clean comes back unchanged. */
  lemma {:induction false} CleanOfClean(isWord: char -> bool, s: string)
    requires forall i :: 0 <= i < |s| ==> Allowed(isWord, s[i])
    ensures CleanFilename(isWord, s) == s
    decreases |s|
  {
    if s != [] {
      assert Allowed(isWord, s[0]);
      CleanOfClean(isWord, s[1..]);
      assert s == [s[0]] + s[1..];
    }
  }

  lemma CleanIdempotent(isWord: char -> bool, s: string)
    ensures CleanFilename(isWord, CleanFilename(isWord, s)) == CleanFilename(isWord, s)
  {
    CleanOfClean(isWord, CleanFilename(isWord, s));
  }

  // ---------------------------------------------------------------------------
  // The cache file and its path

  /** What save_projects_to_file writes: the base URL and the projected listing. */
  datatype CacheFile = CacheFile(gitlabUrl: string, projects: seq<Record>)

  /** A file under projects/: a listing this program wrote, or a file that
      `yaml.safe_load` cannot turn into one. */
  datatype CacheEntry = Yaml(doc: CacheFile) | Unreadable

  type Store = map<string, CacheEntry>

  /** `GITLAB_URL.split('://')[1].replace(':', '_')`: None where the split raises IndexError. */
  function CacheDomain(url: string): (d: Option<string>)
    ensures d.Some? <==> Find(url, "://").Some?
    ensures d.Some? ==> ':' !in d.value
    ensures d.Some? ==> var host := SplitSecond(url, "://").value;
      && |d.value| == |host|
      && forall i :: 0 <= i < |host| ==> d.value[i] == if host[i] == ':' then '_' else host[i]
  {
    match SplitSecond(url, "://")
    case None => None
    case Some(host) => Some(ReplaceChar(host, ':', '_'))
  }

  /** `os.path.join("projects", f"{domain}.yaml")`, the one path that saving, loading and
      the export flow's clean-up all derive. A domain that starts with '/' makes the
      join give that absolute path instead. */
  function CachePath(url: string): (p: Option<string>)
    ensures p.Some? <==> Find(url, "://").Some?
    ensures p.Some? ==> var d := CacheDomain(url).value;
      p.value == (if |d| > 0 && d[0] == '/' then d + ".yaml" else "projects/" + d + ".yaml")
  {
    match CacheDomain(url)
    case None => None
    case Some(d) =>
      var file := d + ".yaml";
      assert |file| > 0 && file[0] == '/' <==> |d| > 0 && d[0] == '/';
      Some(JoinPath("projects", file))
  }

  // ---------------------------------------------------------------------------
  // save_projects_to_file / load_projects_file

  /** The record the list comprehension builds from one API project. */
  function ToRecord(p: ApiProject): (r: Record)
    ensures r.id == p.id && r.name == p.name && r.path == p.path
    ensures r.namespace == p.namespace.name
    ensures r.lastActivityAt == if p.lastActivityAt.Some? then p.lastActivityAt.value else UnknownActivity
  {
    Record(p.id, p.name, p.path, p.namespace.name,
           match p.lastActivityAt case Some(t) => t case None => UnknownActivity)
  }

  /** One record per project, in the order of the input. */
  function Records(projects: seq<ApiProject>): (rs: seq<Record>)
    ensures |rs| == |projects|
    ensures forall i :: 0 <= i < |projects| ==> rs[i] == ToRecord(projects[i])
  {
    seq(|projects|, i requires 0 <= i < |projects| => ToRecord(projects[i]))
  }

  datatype Saved = Saved(ok: bool, store: Store)

  /** save_projects_to_file: `writeFails` stands for `os.makedirs`, `open` or the YAML dump
      raising; every exception, the IndexError of a URL without "://" included, is
      caught and gives False. */
  function SaveProjectsToFile(url: string, projects: seq<ApiProject>, store: Store, writeFails: bool): (r: Saved)
    ensures r.ok <==> Find(url, "://").Some? && !writeFails
    ensures r.ok ==> r.store == store[CachePath(url).value := Yaml(CacheFile(url, Records(projects)))]
    ensures !r.ok ==> r.store == store
  {
    if writeFails then Saved(false, store)
    else match CachePath(url)
      case None => Saved(false, store)
      case Some(path) => Saved(true, store[path := Yaml(CacheFile(url, Records(projects)))])
  }

  /** load_projects_file: None when the file is absent or cannot be read; the split of
      the URL stands outside the `try`, so its IndexError escapes. */
  function LoadProjectsFile(url: string, store: Store): (r: Run<Option<CacheFile>>)
    ensures !r.Pending?
    ensures r.Raise? <==> Find(url, "://").None?
    ensures r.Raise? ==> r.error == IndexError
    ensures r == Return(None) <==>
      CachePath(url).Some? && (CachePath(url).value !in store || store[CachePath(url).value].Unreadable?)
    ensures r.Return? && r.value.Some? ==> store[CachePath(url).value] == Yaml(r.value.value)
  {
    match CachePath(url)
    case None => Raise(IndexError)
    case Some(path) =>
      if path !in store then Return(None)
      else match store[path]
        case Unreadable => Return(None)
        case Yaml(doc) => Return(Some(doc))
  }

  /** Loading after a successful save gives back exactly what was saved. */
  lemma SaveThenLoad(url: string, projects: seq<ApiProject>, store: Store, writeFails: bool)
    requires SaveProjectsToFile(url, projects, store, writeFails).ok
    ensures LoadProjectsFile(url, SaveProjectsToFile(url, projects, store, writeFails).store)
         == Return(Some(CacheFile(url, Records(projects))))
  {
  }

  /** Every project of a saved list can be found again by its id. */
  lemma SavedIdsFound(url: string, projects: seq<ApiProject>, store: Store, writeFails: bool, i: int)
    requires 0 <= i < |projects|
    requires SaveProjectsToFile(url, projects, store, writeFails).ok
    ensures LoadProjectsFile(url, SaveProjectsToFile(url, projects, store, writeFails).store).Return?
    ensures var loaded := LoadProjectsFile(url, SaveProjectsToFile(url, projects, store, writeFails).store);
      loaded.value.Some? && HasId(loaded.value.value.projects, projects[i].id)
  {
    SaveThenLoad(url, projects, store, writeFails);
    assert Records(projects)[i].id == projects[i].id;
  }

  // ---------------------------------------------------------------------------
  // get_project_info

  /** The first record whose id is `id`, None when no record has it. */
  function FindRecord(records: seq<Record>, id: int): (r: Option<Record>)
    ensures r.Some? <==> HasId(records, id)
    ensures r.Some? ==> exists k :: IsFirstWithId(records, id, k) && records[k] == r.value
  {
    if records == [] then None
    else if records[0].id == id then
      assert IsFirstWithId(records, id, 0);
      Some(records[0])
    else
      var r := FindRecord(records[1..], id);
      assert HasId(records[1..], id) <==> HasId(records, id) by {
        if HasId(records, id) {
          var k :| 0 <= k < |records| && records[k].id == id;
          assert records[1..][k - 1].id == id;
        }
      }
      assert r.Some? ==> exists k :: IsFirstWithId(records, id, k) && records[k] == r.value by {
        if r.Some? {
          var k :| IsFirstWithId(records[1..], id, k) && records[1..][k] == r.value;
          assert IsFirstWithId(records, id, k + 1);
        }
      }
      r
  }

  /** get_project_info: the first cached record whose id is `projectId`; None when the
      cache file is missing or unreadable or no record matches. */
  method GetProjectInfo(url: string, store: Store, projectId: int) returns (r: Run<Option<Record>>)
    ensures LoadProjectsFile(url, store).Raise? ==> r == Raise(IndexError)
    ensures LoadProjectsFile(url, store) == Return(None) ==> r == Return(None)
    ensures LoadProjectsFile(url, store).Return? && LoadProjectsFile(url, store).value.Some? ==>
      r == Return(FindRecord(LoadProjectsFile(url, store).value.value.projects, projectId))
  {
    var data := LoadProjectsFile(url, store);
    if !data.Return? {
      return Raise(IndexError);
    }
    if data.value.None? {
      return Return(None);
    }
    var projects := data.value.value.projects;
    var i := 0;
    while i < |projects|
      invariant 0 <= i <= |projects|
      invariant FindRecord(projects[i..], projectId) == FindRecord(projects, projectId)
    {
      if projects[i].id == projectId {
        return Return(Some(projects[i]));
      }
      assert projects[i..][1..] == projects[i + 1..];
      i := i + 1;
    }
    return Return(None);
  }
}
