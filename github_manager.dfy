/** `GitHubManager` (github_manager.py).  The GitHub account the manager
    talks to is modelled as state: a map from repository name to the
    repository's files and commits.  A call to the GitHub API either does
    what that state implies (including the errors it implies: a missing
    repository or file is a 404, an existing name or path a 422) or fails
    with a status chosen by the environment, given as the `faults`
    function. */
module GitHubManager {
  import opened Wrappers
  import opened PyString
  import opened FileSets

  // ---------------------------------------------------------------------
  // Repository names (`_generate_repo_name`)

  /** `.replace('_', '-').replace(' ', '-').lower()` on one character. */
  function CleanChar(c: char): char {
    if c == '_' || c == ' ' then '-' else LowerChar(c)
  }

  function Clean(s: string): (r: string)
    ensures |r| == |s|
    ensures forall i :: 0 <= i < |s| ==> r[i] == CleanChar(s[i])
  {
    if s == [] then [] else [CleanChar(s[0])] + Clean(s[1..])
  }

  /** `str(e)` for the `IndexError` of `repo_name[0]` on an empty name. */
  const EmptyNameError := "string index out of range"

  /** A name `_generate_repo_name` can produce: no underscore, no space,
      no upper-case letter, and a letter first. */
  predicate IsRepoName(s: string) {
    s != [] && IsAlpha(s[0])
    && forall i :: 0 <= i < |s| ==> s[i] != '_' && s[i] != ' ' && !IsUpper(s[i])
  }

  /** `_generate_repo_name(task_id)`, or the error it raises. */
  function RepoName(taskId: string): (r: Result<string, string>)
    ensures r.Failure? <==> taskId == []
    ensures r.Failure? ==> r.error == EmptyNameError
    ensures r.Success? ==> IsRepoName(r.value)
    ensures r.Success? ==>
      r.value == (if IsAlpha(CleanChar(taskId[0])) then Clean(taskId) else "task-" + Clean(taskId))
  {
    if taskId == [] then Failure(EmptyNameError)
    else
      var cleaned := Clean(taskId);
      if IsAlpha(cleaned[0]) then Success(cleaned) else Success("task-" + cleaned)
  }

  lemma {:induction false} CleanIdempotent(s: string)
    ensures Clean(Clean(s)) == Clean(s)
  {
    if s != [] {
      CleanIdempotent(s[1..]);
    }
  }

  lemma CleanPrefix(p: string, s: string)
    requires forall i :: 0 <= i < |p| ==> CleanChar(p[i]) == p[i]
    ensures Clean(p + s) == p + Clean(s)
  {
    var l, r := Clean(p + s), p + Clean(s);
    assert forall i :: 0 <= i < |l| ==> l[i] == r[i];
  }

  /** A produced name maps to itself: naming is a normal form, so the name
      Round 2 derives from a task id is the one Round 1 created. */
  lemma RepoNameIdempotent(taskId: string)
    requires taskId != []
    ensures RepoName(RepoName(taskId).value) == RepoName(taskId)
  {
    var cleaned := Clean(taskId);
    CleanIdempotent(taskId);
    if !IsAlpha(cleaned[0]) {
      CleanPrefix("task-", cleaned);
    }
  }

  /** Only the space character is replaced: a tab survives, and so a name
      can still hold whitespace. */
  lemma OnlySpaceIsReplaced()
    ensures RepoName("my app") == Success("my-app")
    ensures RepoName("my\tapp") == Success("my\tapp")
  {
    assert Clean("my app") == "my-app";
    assert Clean("my\tapp") == "my\tapp";
  }

  /** Ids that differ only in case, underscores and spaces share a
      repository; an id starting with a digit gets the `task-` prefix. */
  lemma NamesCollide()
    ensures RepoName("a_b") == Success("a-b")
    ensures RepoName("a b") == Success("a-b")
    ensures RepoName("42") == Success("task-42")
  {
    assert Clean("a_b") == "a-b";
    assert Clean("a b") == "a-b";
    assert Clean("42") == "42";
    assert "task-" + "42" == "task-42";
  }

  // ---------------------------------------------------------------------
  // The remote account

  /** One file of a repository: its content and its blob sha. */
  datatype FileEntry = FileEntry(content: string, sha: nat)

  /** A repository: its files and its commit shas, newest first. */
  datatype Repo = Repo(files: map<string, FileEntry>, commits: seq<nat>)

  /** The calls the manager makes to the GitHub API. */
  datatype RemoteCall =
    | GetRepoCall(name: string)
    | CreateRepoCall(name: string)
    | GetContentsCall(name: string, path: string)
    | CreateFileCall(name: string, path: string)
    | UpdateFileCall(name: string, path: string)
    | GetCommitsCall(name: string)

  /** The status with which the environment makes a call fail (network,
      permission or rate-limit errors), if it does. */
  type Faults = RemoteCall -> Option<int>

  /** A `GithubException`.  Only its status is modelled. */
  datatype GitHubError = GitHubError(status: int)

  /** `str(e)` for a `GithubException`, reduced to its status code. */
  function ErrorText(e: GitHubError): string {
    IntToString(e.status)
  }

  /** What the files of a repository hold. */
  function Contents(repo: Repo): (m: map<string, string>)
    ensures m.Keys == repo.files.Keys
    ensures forall p :: p in m ==> m[p] == repo.files[p].content
  {
    map p | p in repo.files :: repo.files[p].content
  }

  /** A successful write: the file holds the content under a new sha, and
      one commit is added. */
  function Write(repo: Repo, path: string, content: string, sha: nat): (r: Repo)
    ensures Contents(r) == Contents(repo)[path := content]
    ensures |r.commits| == |repo.commits| + 1 && r.commits[0] == sha
  {
    Repo(repo.files[path := FileEntry(content, sha)], [sha] + repo.commits)
  }

  /** How `create_file` fails: a fault, or 422 when the path exists. */
  function CreateStatus(repo: Repo, name: string, path: string, faults: Faults): Option<int> {
    if faults(CreateFileCall(name, path)).Some? then faults(CreateFileCall(name, path))
    else if path in repo.files then Some(422)
    else None
  }

  /** How `update_file` fails: a fault, 404 when the path is absent, 409
      when the given sha is not the file's current one. */
  function UpdateStatus(repo: Repo, name: string, path: string, sha: nat, faults: Faults): Option<int> {
    if faults(UpdateFileCall(name, path)).Some? then faults(UpdateFileCall(name, path))
    else if path !in repo.files then Some(404)
    else if repo.files[path].sha != sha then Some(409)
    else None
  }

  /** What `create_and_deploy_repo` / `update_repo` return. */
  datatype RepoInfo = RepoInfo(repoUrl: string, commitSha: nat, pagesUrl: string)

  /** The outcome of the Pages REST call: a status, or an exception. */
  datatype PagesOutcome = Responded(status: int) | Raised

  /** What `_enable_github_pages` reports; it never raises. */
  datatype PagesReport = Enabled | AlreadyEnabled | Warned

  /** The Pages URL of a repository. */
  function PagesUrl(login: string, name: string): string {
    "https://" + login + ".github.io/" + name + "/"
  }

  /** `repo.html_url`, following GitHub's convention. */
  function HtmlUrl(login: string, name: string): string {
    "https://github.com/" + login + "/" + name
  }

  /** How the upsert of one file fails: the file is looked up and updated
      under its current sha; a 404 from either of those two calls (they
      share one `try`) selects creation instead, any other status is
      raised. */
  function UpsertStatus(repo: Repo, name: string, path: string, faults: Faults): Option<int> {
    var lookup := if faults(GetContentsCall(name, path)).Some? then faults(GetContentsCall(name, path))
                  else if path in repo.files then None else Some(404);
    var first := if lookup.None? then UpdateStatus(repo, name, path, repo.files[path].sha, faults) else lookup;
    if first == Some(404) then CreateStatus(repo, name, path, faults) else first
  }

  /** The file a repository holds at `path`, if any. */
  function Entry(repo: Repo, path: string): Option<FileEntry> {
    if path in repo.files then Some(repo.files[path]) else None
  }

  /** The upsert of a path depends only on what the repository holds there. */
  lemma UpsertByEntry(r1: Repo, r2: Repo, name: string, path: string, faults: Faults)
    requires Entry(r1, path) == Entry(r2, path)
    ensures UpsertStatus(r1, name, path, faults) == UpsertStatus(r2, name, path, faults)
  {
  }

  /** Writing one path leaves what the repository holds at the later,
      distinct paths as it was. */
  lemma LaterEntriesKept(repo: Repo, files: FileSet, i: nat, sha: nat)
    requires UniquePaths(files) && i < |files|
    ensures forall j :: i < j < |files| ==>
      Entry(Write(repo, files[i].0, files[i].1, sha), files[j].0) == Entry(repo, files[j].0)
  {
  }

  /** The environment lets every `create_file` call for the listed paths through. */
  predicate CreatesClear(faults: Faults, name: string, files: FileSet) {
    forall i :: 0 <= i < |files| ==> faults(CreateFileCall(name, files[i].0)) == None
  }

  /** A clear prefix stays clear when the next path's creation is clear. */
  lemma CreatesClearStep(faults: Faults, name: string, files: FileSet, i: nat)
    requires i < |files| && CreatesClear(faults, name, files[..i])
    requires faults(CreateFileCall(name, files[i].0)) == None
    ensures CreatesClear(faults, name, files[..i + 1])
  {
    assert forall j :: 0 <= j < i ==> files[..i + 1][j] == files[..i][j];
  }

  /** Every listed path, upserted into `repo`, succeeds. */
  predicate UpsertsClear(repo: Repo, name: string, files: FileSet, faults: Faults) {
    forall i :: 0 <= i < |files| ==> UpsertStatus(repo, name, files[i].0, faults) == None
  }

  /** A clear prefix stays clear when the next path's upsert is clear. */
  lemma UpsertsClearStep(repo: Repo, name: string, files: FileSet, faults: Faults, i: nat)
    requires i < |files| && UpsertsClear(repo, name, files[..i], faults)
    requires UpsertStatus(repo, name, files[i].0, faults) == None
    ensures UpsertsClear(repo, name, files[..i + 1], faults)
  {
    assert forall j :: 0 <= j < i ==> files[..i + 1][j] == files[..i][j];
  }

  /** The environment lets every write call for the listed paths through. */
  predicate WritesClear(faults: Faults, name: string, files: FileSet) {
    forall i :: 0 <= i < |files| ==>
      faults(GetContentsCall(name, files[i].0)) == None
      && faults(UpdateFileCall(name, files[i].0)) == None
      && faults(CreateFileCall(name, files[i].0)) == None
  }

  /** With no fault injected, the upsert of any path succeeds, whether the
      file is there or not. */
  lemma UpsertSucceedsWithoutFaults(repo: Repo, name: string, path: string, faults: Faults)
    requires faults(GetContentsCall(name, path)) == None
    requires faults(UpdateFileCall(name, path)) == None && faults(CreateFileCall(name, path)) == None
    ensures UpsertStatus(repo, name, path, faults) == None
  {
  }

  class GitHubManager {
    /** `self.user.login`. */
    const login: string
    /** The repositories of the account. */
    var repos: map<string, Repo>
    /** The next sha the remote hands out. */
    var nextSha: nat

    constructor (login: string, repos: map<string, Repo>, nextSha: nat)
      ensures this.login == login && this.repos == repos && this.nextSha == nextSha
    {
      this.login := login;
      this.repos := repos;
      this.nextSha := nextSha;
    }

    /** `repo.create_file(path, message, content)`. */
    method CreateFile(name: string, path: string, content: string, faults: Faults)
      returns (err: Option<GitHubError>)
      requires name in repos
      modifies this
      ensures var status := CreateStatus(old(repos)[name], name, path, faults);
        && (status.Some? ==> err == Some(GitHubError(status.value)) && repos == old(repos) && nextSha == old(nextSha))
        && (status.None? ==>
              err == None && nextSha == old(nextSha) + 1
              && repos == old(repos)[name := Write(old(repos)[name], path, content, old(nextSha))])
    {
      var status := CreateStatus(repos[name], name, path, faults);
      if status.Some? {
        return Some(GitHubError(status.value));
      }
      repos := repos[name := Write(repos[name], path, content, nextSha)];
      nextSha := nextSha + 1;
      return None;
    }

    /** `repo.update_file(path, message, content, sha)`. */
    method UpdateFile(name: string, path: string, content: string, sha: nat, faults: Faults)
      returns (err: Option<GitHubError>)
      requires name in repos
      modifies this
      ensures var status := UpdateStatus(old(repos)[name], name, path, sha, faults);
        && (status.Some? ==> err == Some(GitHubError(status.value)) && repos == old(repos) && nextSha == old(nextSha))
        && (status.None? ==>
              err == None && nextSha == old(nextSha) + 1
              && repos == old(repos)[name := Write(old(repos)[name], path, content, old(nextSha))])
    {
      var status := UpdateStatus(repos[name], name, path, sha, faults);
      if status.Some? {
        return Some(GitHubError(status.value));
      }
      repos := repos[name := Write(repos[name], path, content, nextSha)];
      nextSha := nextSha + 1;
      return None;
    }

    /** `repo.get_contents(path)`: the file, or a 404 when it is absent. */
    method GetContents(name: string, path: string, faults: Faults)
      returns (r: Result<FileEntry, GitHubError>)
      requires name in repos
      ensures faults(GetContentsCall(name, path)).Some? ==> r == Failure(GitHubError(faults(GetContentsCall(name, path)).value))
      ensures faults(GetContentsCall(name, path)).None? ==>
        (path in repos[name].files ==> r == Success(repos[name].files[path]))
        && (path !in repos[name].files ==> r == Failure(GitHubError(404)))
    {
      var fault := faults(GetContentsCall(name, path));
      if fault.Some? {
        return Failure(GitHubError(fault.value));
      }
      if path !in repos[name].files {
        return Failure(GitHubError(404));
      }
      return Success(repos[name].files[path]);
    }

    /** `_push_files(repo, files)`: create the files in order; the first
        failure is raised and the files created before it stay.  `written`
        counts the files created. */
    method PushFiles(name: string, files: FileSet, faults: Faults)
      returns (err: Option<GitHubError>, ghost written: nat)
      requires name in repos
      modifies this
      ensures written <= |files| && name in repos
      ensures forall n :: n in old(repos) <==> n in repos
      ensures forall n :: n in repos && n != name ==> repos[n] == old(repos)[n]
      ensures Contents(repos[name]) == Contents(old(repos)[name]) + ToMap(files[..written])
      ensures |repos[name].commits| == |old(repos)[name].commits| + written
      ensures err.None? <==> written == |files|
      ensures err.Some? ==>
        var status := CreateStatus(repos[name], name, files[written].0, faults);
        status.Some? && err == Some(GitHubError(status.value))
      ensures UniquePaths(files) && old(repos)[name].files == map[] ==>
        (err.None? <==> CreatesClear(faults, name, files))
    {
      written := 0;
      ghost var base := Contents(repos[name]);
      for i := 0 to |files|
        invariant written == i && name in repos
        invariant forall n :: n in old(repos) <==> n in repos
        invariant forall n :: n in repos && n != name ==> repos[n] == old(repos)[n]
        invariant Contents(repos[name]) == base + ToMap(files[..i])
        invariant |repos[name].commits| == |old(repos)[name].commits| + i
        invariant CreatesClear(faults, name, files[..i])
      {
        var (path, content) := files[i];
        if UniquePaths(files) && old(repos)[name].files == map[] {
          NotYetWritten(files, i);
          assert base.Keys == {};
          assert path !in Contents(repos[name]);
        }
        err := CreateFile(name, path, content, faults);
        if err.Some? {
          return;
        }
        MergeStep(base, files, i);
        CreatesClearStep(faults, name, files, i);
        written := i + 1;
      }
      assert files[..|files|] == files;
      return None, written;
    }

    /** `_update_files(repo, files)`: upsert the files in order; the first
        failure other than the 404 that selects creation is raised, and the
        files written before it stay. */
    method UpdateFiles(name: string, files: FileSet, faults: Faults)
      returns (err: Option<GitHubError>, ghost written: nat)
      requires name in repos
      modifies this
      ensures written <= |files| && name in repos
      ensures forall n :: n in old(repos) <==> n in repos
      ensures forall n :: n in repos && n != name ==> repos[n] == old(repos)[n]
      ensures Contents(repos[name]) == Contents(old(repos)[name]) + ToMap(files[..written])
      ensures |repos[name].commits| == |old(repos)[name].commits| + written
      ensures err.None? <==> written == |files|
      ensures err.Some? ==>
        var status := UpsertStatus(repos[name], name, files[written].0, faults);
        status.Some? && err == Some(GitHubError(status.value))
      ensures WritesClear(faults, name, files) ==> err.None?
      ensures UniquePaths(files) ==> (err.None? <==> UpsertsClear(old(repos)[name], name, files, faults))
    {
      written := 0;
      ghost var base := Contents(repos[name]);
      for i := 0 to |files|
        invariant written == i && name in repos
        invariant forall n :: n in old(repos) <==> n in repos
        invariant forall n :: n in repos && n != name ==> repos[n] == old(repos)[n]
        invariant Contents(repos[name]) == base + ToMap(files[..i])
        invariant |repos[name].commits| == |old(repos)[name].commits| + i
        invariant UniquePaths(files) ==> UpsertsClear(old(repos)[name], name, files[..i], faults)
        invariant UniquePaths(files) ==>
          forall j :: i <= j < |files| ==> Entry(repos[name], files[j].0) == Entry(old(repos)[name], files[j].0)
      {
        var (path, content) := files[i];
        ghost var before := repos[name];
        ghost var sha := nextSha;
        if UniquePaths(files) {
          UpsertByEntry(before, old(repos)[name], name, path, faults);
          LaterEntriesKept(before, files, i, sha);
        }
        err := Upsert(name, path, content, faults);
        if err.Some? {
          return;
        }
        MergeStep(base, files, i);
        if UniquePaths(files) {
          UpsertsClearStep(old(repos)[name], name, files, faults, i);
        }
        written := i + 1;
      }
      assert files[..|files|] == files;
      return None, written;
    }

    /** One pass of the loop in `_update_files`: look the file up and
        update it under its sha; a 404 from either call creates it instead,
        any other error is raised. */
    method Upsert(name: string, path: string, content: string, faults: Faults)
      returns (err: Option<GitHubError>)
      requires name in repos
      modifies this
      ensures var status := UpsertStatus(old(repos)[name], name, path, faults);
        && (status.Some? ==> err == Some(GitHubError(status.value)) && repos == old(repos) && nextSha == old(nextSha))
        && (status.None? ==>
              err == None && nextSha == old(nextSha) + 1
              && repos == old(repos)[name := Write(old(repos)[name], path, content, old(nextSha))])
    {
      var existing := GetContents(name, path, faults);
      if existing.Success? {
        err := UpdateFile(name, path, content, existing.value.sha, faults);
      } else {
        err := Some(existing.error);
      }
      if err.Some? && err.value.status == 404 {
        err := CreateFile(name, path, content, faults);
      }
    }

    /** `repo.get_commits()[0].sha`: the newest commit; an empty
        repository answers 409. */
    method LatestCommit(name: string, faults: Faults) returns (r: Result<nat, GitHubError>)
      requires name in repos
      ensures faults(GetCommitsCall(name)).Some? ==> r == Failure(GitHubError(faults(GetCommitsCall(name)).value))
      ensures faults(GetCommitsCall(name)).None? ==>
        (repos[name].commits == [] ==> r == Failure(GitHubError(409)))
        && (repos[name].commits != [] ==> r == Success(repos[name].commits[0]))
    {
      var fault := faults(GetCommitsCall(name));
      if fault.Some? {
        return Failure(GitHubError(fault.value));
      }
      if repos[name].commits == [] {
        return Failure(GitHubError(409));
      }
      return Success(repos[name].commits[0]);
    }

    /** `_enable_github_pages(repo)`: whatever the Pages API does, the
        Pages URL is returned; 201 and 409 count as enabled, anything else
        only warns. */
    method EnablePages(name: string, outcome: PagesOutcome) returns (url: string, report: PagesReport)
      ensures url == PagesUrl(login, name)
      ensures report == Enabled <==> outcome == Responded(201)
      ensures report == AlreadyEnabled <==> outcome == Responded(409)
      ensures report == Warned <==> outcome.Raised? || outcome.status !in {201, 409}
    {
      if outcome.Responded? && outcome.status == 201 {
        report := Enabled;
      } else if outcome.Responded? && outcome.status == 409 {
        report := AlreadyEnabled;
      } else {
        report := Warned;
      }
      url := "https://" + login + ".github.io/" + name + "/";
    }

    /** `create_and_deploy_repo(task_id, files)`: derive the name, create
        the repository, then push and publish.  Repositories that existed
        before are never touched. */
    method CreateAndDeployRepo(taskId: string, files: FileSet, faults: Faults, pages: PagesOutcome)
      returns (r: Result<RepoInfo, string>)
      modifies this
      ensures taskId == [] ==> r == Failure(EmptyNameError) && repos == old(repos)
      ensures forall n :: n in old(repos) ==> n in repos && repos[n] == old(repos)[n]
      ensures taskId != [] ==>
        var name := RepoName(taskId).value;
        && (faults(CreateRepoCall(name)).Some? || name in old(repos) ==> r.Failure? && repos == old(repos))
        && (name in old(repos) && faults(CreateRepoCall(name)).None? ==> r == Failure(ErrorText(GitHubError(422))))
        && (forall n :: n in repos ==> n in old(repos) || n == name)
        && (r.Success? ==>
              && name in repos && Contents(repos[name]) == ToMap(files) && repos[name].commits != []
              && r.value == RepoInfo(HtmlUrl(login, name), repos[name].commits[0], PagesUrl(login, name)))
      ensures taskId != [] && UniquePaths(files) && |files| > 0 ==>
        var name := RepoName(taskId).value;
        (r.Success? <==>
          faults(CreateRepoCall(name)).None? && name !in old(repos)
          && CreatesClear(faults, name, files) && faults(GetCommitsCall(name)).None?)
    {
      var named := RepoName(taskId);
      if named.Failure? {
        return Failure(named.error);
      }
      var name := named.value;
      var fault := faults(CreateRepoCall(name));
      if fault.Some? {
        return Failure(ErrorText(GitHubError(fault.value)));
      }
      if name in repos {
        return Failure(ErrorText(GitHubError(422)));
      }
      repos := repos[name := Repo(map[], [])];
      r := PushAndPublish(name, files, faults, pages);
    }

    /** The rest of `create_and_deploy_repo` once the repository exists:
        push the files, read the newest commit, enable Pages. */
    method PushAndPublish(name: string, files: FileSet, faults: Faults, pages: PagesOutcome)
      returns (r: Result<RepoInfo, string>)
      requires name in repos && repos[name] == Repo(map[], [])
      modifies this
      ensures name in repos
      ensures forall n :: n in old(repos) <==> n in repos
      ensures forall n :: n in repos && n != name ==> repos[n] == old(repos)[n]
      ensures r.Success? ==>
        && Contents(repos[name]) == ToMap(files) && repos[name].commits != []
        && r.value == RepoInfo(HtmlUrl(login, name), repos[name].commits[0], PagesUrl(login, name))
      ensures UniquePaths(files) && |files| > 0 ==>
        (r.Success? <==> CreatesClear(faults, name, files) && faults(GetCommitsCall(name)).None?)
    {
      ghost var empty := Contents(repos[name]);
      var err, written := PushFiles(name, files, faults);
      if err.Some? {
        assert UniquePaths(files) ==> !CreatesClear(faults, name, files);
        return Failure(ErrorText(err.value));
      }
      assert UniquePaths(files) ==> CreatesClear(faults, name, files);
      assert |repos[name].commits| == |files|;
      assert files[..written] == files;
      MergeIntoEmpty(empty, ToMap(files));
      r := Publish(name, faults, pages);
    }

    /** The end of `create_and_deploy_repo`: read the newest commit, then
        enable Pages. */
    method Publish(name: string, faults: Faults, pages: PagesOutcome) returns (r: Result<RepoInfo, string>)
      requires name in repos
      ensures faults(GetCommitsCall(name)).Some? ==>
        r == Failure(ErrorText(GitHubError(faults(GetCommitsCall(name)).value)))
      ensures faults(GetCommitsCall(name)).None? ==> (r.Success? <==> repos[name].commits != [])
      ensures r.Success? ==> (repos[name].commits != []
        && r.value == RepoInfo(HtmlUrl(login, name), repos[name].commits[0], PagesUrl(login, name)))
    {
      var sha := LatestCommit(name, faults);
      if sha.Failure? {
        return Failure(ErrorText(sha.error));
      }
      var url, _ := EnablePages(name, pages);
      return Success(RepoInfo(HtmlUrl(login, name), sha.value, url));
    }

    /** `update_repo(repo_name, files)`: upsert the files into the existing
        repository and report its newest commit; the Pages URL is built from
        the name, as on creation. */
    method UpdateRepo(name: string, files: FileSet, faults: Faults) returns (r: Result<RepoInfo, string>)
      modifies this
      ensures (faults(GetRepoCall(name)).Some? || name !in old(repos)) ==> r.Failure? && repos == old(repos)
      ensures name !in old(repos) && faults(GetRepoCall(name)).None? ==> r == Failure(ErrorText(GitHubError(404)))
      ensures forall n :: n in old(repos) <==> n in repos
      ensures forall n :: n in repos && n != name ==> repos[n] == old(repos)[n]
      ensures r.Success? ==>
        && name in old(repos)
        && Contents(repos[name]) == Contents(old(repos)[name]) + ToMap(files)
        && repos[name].commits != []
        && r.value == RepoInfo(HtmlUrl(login, name), repos[name].commits[0], PagesUrl(login, name))
      ensures UniquePaths(files) && |files| > 0 ==>
        (r.Success? <==>
          faults(GetRepoCall(name)).None? && name in old(repos)
          && UpsertsClear(old(repos)[name], name, files, faults) && faults(GetCommitsCall(name)).None?)
    {
      var fault := faults(GetRepoCall(name));
      if fault.Some? {
        return Failure(ErrorText(GitHubError(fault.value)));
      }
      if name !in repos {
        return Failure(ErrorText(GitHubError(404)));
      }
      var err, written := UpdateFiles(name, files, faults);
      if err.Some? {
        return Failure(ErrorText(err.value));
      }
      assert files[..written] == files;
      var sha := LatestCommit(name, faults);
      if sha.Failure? {
        return Failure(ErrorText(sha.error));
      }
      var pagesUrl := "https://" + login + ".github.io/" + name + "/";
      return Success(RepoInfo(HtmlUrl(login, name), sha.value, pagesUrl));
    }

    /** `get_repo_file_content(repo_name, filename)`: the file's content,
        or `None` on any GitHub error. */
    method GetRepoFileContent(name: string, path: string, faults: Faults) returns (r: Option<string>)
      ensures r.Some? <==>
        faults(GetRepoCall(name)).None? && name in repos
        && faults(GetContentsCall(name, path)).None? && path in repos[name].files
      ensures r.Some? ==> r.value == repos[name].files[path].content
    {
      if faults(GetRepoCall(name)).Some? || name !in repos {
        return None;
      }
      var file := GetContents(name, path, faults);
      if file.Failure? {
        return None;
      }
      return Some(file.value.content);
    }

    /** `repo_exists(repo_name)`: whether `get_repo` succeeds. */
    method RepoExists(name: string, faults: Faults) returns (b: bool)
      ensures b <==> faults(GetRepoCall(name)).None? && name in repos
    {
      b := faults(GetRepoCall(name)).None? && name in repos;
    }
  }

  /** Writing entries into a repository that has no files leaves exactly
      those entries. */
  lemma MergeIntoEmpty(empty: map<string, string>, written: map<string, string>)
    requires empty.Keys == {}
    ensures empty + written == written
  {
  }
}
