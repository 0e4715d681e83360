/** The Flask application (app.py): the `/api-endpoint` request handler,
    the secret check, the two rounds, the `processed_tasks` record and the
    evaluation callback with its retry schedule.  Everything the handler
    reaches outside the process (the LLM providers, GitHub, the Pages API,
    the evaluation server) is an input collected in a `World`. */
module App {
  import opened Wrappers
  import opened PyString
  import opened FileSets
  import Config
  import LlmGenerator
  import GitHubManager
  import GeminiResponse

  // ---------------------------------------------------------------------
  // The JSON payload

  /** A JSON value as `request.get_json()` returns it (numbers are integers). */
  datatype Value =
    | Null
    | Bool(b: bool)
    | Int(i: int)
    | Str(s: string)
    | Array(items: seq<Value>)
    | Object(fields: map<string, Value>)

  /** Python truthiness of a decoded JSON value. */
  predicate Falsy(v: Value) {
    match v
    case Null => true
    case Bool(b) => !b
    case Int(i) => i == 0
    case Str(s) => s == ""
    case Array(items) => items == []
    case Object(fields) => fields == map[]
  }

  /** `data.get(key)`: `None` when the key is absent. */
  function Get(m: map<string, Value>, key: string): Option<Value> {
    if key in m then Some(m[key]) else None
  }

  /** `not data.get(key)`: absent, or present with a falsy value. */
  predicate Lacks(m: map<string, Value>, key: string) {
    key !in m || Falsy(m[key])
  }

  /** The Python type name `str(e)` mentions when `.get` is called on a
      decoded value that is not a dictionary. */
  function TypeName(v: Value): string {
    match v
    case Null => "NoneType"
    case Bool(_) => "bool"
    case Int(_) => "int"
    case Str(_) => "str"
    case Array(_) => "list"
    case Object(_) => "dict"
  }

  // ---------------------------------------------------------------------
  // Replies

  /** The JSON body of a reply: `{'error': ...}` for the early rejections,
      the success record, or `{'status': 'error', 'message': ...}`. */
  datatype ReplyBody =
    | Rejected(error: string)
    | Completed(round: Value, repoUrl: string, pagesUrl: string)
    | Failed(message: string)

  datatype Reply = Reply(status: int, body: ReplyBody)

  const NoPayload := "No JSON payload provided"
  const InvalidSecret := "Invalid secret"

  /** The fields that must be present and truthy, in the order they are
      reported. */
  const RequiredFields: seq<string> := ["email", "task", "nonce", "brief", "evaluation_url"]

  /** `verify_secret(provided)`: plain equality with the configured secret,
      where an unset secret is `None` and so equals an absent or null one. */
  predicate VerifySecret(provided: Option<Value>, secret: Option<string>) {
    match secret
    case None => provided == None || provided == Some(Null)
    case Some(s) => provided == Some(Str(s))
  }

  /** `[f for f in required_fields if not data.get(f)]`. */
  function Unfilled(m: map<string, Value>, fields: seq<string>): (r: seq<string>)
    ensures forall f :: f in r <==> f in fields && Lacks(m, f)
    ensures |r| <= |fields|
  {
    if fields == [] then []
    else (if Lacks(m, fields[0]) then [fields[0]] else []) + Unfilled(m, fields[1..])
  }

  function MissingFields(m: map<string, Value>): seq<string> {
    Unfilled(m, RequiredFields)
  }

  function MissingMessage(missing: seq<string>): string {
    "Missing required fields: " + Join(missing, ", ")
  }

  /** The message of the `AttributeError` raised when the payload is not a
      dictionary. */
  function NotADictionary(v: Value): string {
    "Internal error: '" + TypeName(v) + "' object has no attribute 'get'"
  }

  /** The checks `api_endpoint` makes before it dispatches, in their order:
      no payload, a payload that is not a dictionary (the `.get` on it
      raises), a wrong secret, missing fields.  `None` means the request
      goes on to a round. */
  function Screen(body: Option<Value>, secret: Option<string>): (r: Option<Reply>)
    ensures r.Some? ==> r.value.status in {400, 403, 500}
    ensures r.None? <==>
      && body.Some? && body.value.Object?
      && VerifySecret(Get(body.value.fields, "secret"), secret)
      && forall f :: f in RequiredFields ==> !Lacks(body.value.fields, f)
  {
    if body.None? || Falsy(body.value) then
      assert body.Some? && body.value.Object? ==> "email" in RequiredFields && Lacks(body.value.fields, "email");
      Some(Reply(400, Rejected(NoPayload)))
    else if !body.value.Object? then Some(Reply(500, Failed(NotADictionary(body.value))))
    else
      var m := body.value.fields;
      if !VerifySecret(Get(m, "secret"), secret) then Some(Reply(403, Rejected(InvalidSecret)))
      else
        var missing := MissingFields(m);
        if missing != [] then
          assert missing[0] in missing;
          Some(Reply(400, Rejected(MissingMessage(missing))))
        else None
  }

  /** The missing fields are reported in the fixed order email, task, nonce,
      brief, evaluation_url, each exactly when it is absent or falsy. */
  lemma MissingFieldsInOrder(m: map<string, Value>)
    ensures MissingFields(m) ==
      (if Lacks(m, "email") then ["email"] else [])
      + ((if Lacks(m, "task") then ["task"] else [])
      + ((if Lacks(m, "nonce") then ["nonce"] else [])
      + ((if Lacks(m, "brief") then ["brief"] else [])
      + (if Lacks(m, "evaluation_url") then ["evaluation_url"] else []))))
  {
    var e := if Lacks(m, "evaluation_url") then ["evaluation_url"] else [];
    var b := if Lacks(m, "brief") then ["brief"] else [];
    var n := if Lacks(m, "nonce") then ["nonce"] else [];
    var t := if Lacks(m, "task") then ["task"] else [];
    var a := if Lacks(m, "email") then ["email"] else [];
    var f4 := ["evaluation_url"];
    var f3 := ["brief"] + f4;
    var f2 := ["nonce"] + f3;
    var f1 := ["task"] + f2;
    assert RequiredFields == ["email"] + f1;
    UnfilledCons(m, "evaluation_url", []);
    assert ["evaluation_url"] + [] == f4;
    assert Unfilled(m, f4) == e;
    UnfilledCons(m, "brief", f4);
    assert Unfilled(m, f3) == b + e;
    UnfilledCons(m, "nonce", f3);
    assert Unfilled(m, f2) == n + (b + e);
    UnfilledCons(m, "task", f2);
    assert Unfilled(m, f1) == t + (n + (b + e));
    UnfilledCons(m, "email", f1);
  }

  lemma UnfilledCons(m: map<string, Value>, f: string, rest: seq<string>)
    ensures Unfilled(m, [f] + rest) == (if Lacks(m, f) then [f] else []) + Unfilled(m, rest)
  {
    assert ([f] + rest)[1..] == rest;
  }

  /** The order of the checks: an empty payload is rejected whatever else
      holds; a wrong secret is rejected before the fields are looked at;
      only with the right secret do missing fields give 400. */
  lemma ScreeningOrder(body: Option<Value>, secret: Option<string>)
    ensures body.None? || Falsy(body.value) ==> Screen(body, secret) == Some(Reply(400, Rejected(NoPayload)))
    ensures body.Some? && body.value.Object? && body.value.fields != map[]
            && !VerifySecret(Get(body.value.fields, "secret"), secret)
            ==> Screen(body, secret) == Some(Reply(403, Rejected(InvalidSecret)))
    ensures body.Some? && body.value.Object? && body.value.fields != map[]
            && VerifySecret(Get(body.value.fields, "secret"), secret)
            && MissingFields(body.value.fields) != []
            ==> Screen(body, secret) == Some(Reply(400, Rejected(MissingMessage(MissingFields(body.value.fields)))))
  {
  }

  /** With no secret configured, a request that carries no secret (or a null
      one) passes verification, and one that carries any string fails. */
  lemma UnsetSecretAcceptsAnonymousRequests(m: map<string, Value>)
    requires "secret" !in m || m["secret"] == Null
    ensures VerifySecret(Get(m, "secret"), None)
    ensures forall s :: !VerifySecret(Some(Str(s)), None)
  {
  }

  // ---------------------------------------------------------------------
  // Reading the request

  /** `data.get('round', 1)`. */
  function RoundOf(m: map<string, Value>): Value {
    if "round" in m then m["round"] else Int(1)
  }

  /** `round_num == 1`: the integer 1, or `True`, which equals 1 in Python. */
  predicate IsRoundOne(round: Value) {
    round == Int(1) || round == Bool(true)
  }

  /** Round 1 runs when `round` is absent, 1 or `true`; anything else,
      `"1"` included, runs Round 2. */
  lemma RoundDispatch(m: map<string, Value>)
    ensures IsRoundOne(RoundOf(m)) <==> "round" !in m || m["round"] == Int(1) || m["round"] == Bool(true)
    ensures "round" in m && m["round"] == Str("1") ==> !IsRoundOne(RoundOf(m))
  {
  }

  predicate TextOrAbsent(m: map<string, Value>, key: string) {
    key !in m || m[key].Str?
  }

  predicate IsAttachment(v: Value) {
    v.Object? && TextOrAbsent(v.fields, "name") && TextOrAbsent(v.fields, "url")
  }

  /** The payload shape the rounds are modelled for: `task` and `brief`
      are strings, `checks` a list of strings, `attachments` null or a list
      of objects whose `name` and `url` are strings.  `email`, `nonce` and
      `evaluation_url` are only passed on, so they may be any value. */
  predicate WellFormed(v: Value) {
    && v.Object?
    && TextOrAbsent(v.fields, "task") && TextOrAbsent(v.fields, "brief")
    && ("checks" in v.fields ==>
          v.fields["checks"].Array? && forall c :: c in v.fields["checks"].items ==> c.Str?)
    && ("attachments" in v.fields ==>
          || v.fields["attachments"] == Null
          || (v.fields["attachments"].Array? && forall a :: a in v.fields["attachments"].items ==> IsAttachment(a)))
  }

  function Text(m: map<string, Value>, key: string): string
    requires TextOrAbsent(m, key)
  {
    if key in m then m[key].s else ""
  }

  function Strings(vs: seq<Value>): (r: seq<string>)
    requires forall v :: v in vs ==> v.Str?
    ensures |r| == |vs| && forall i :: 0 <= i < |vs| ==> r[i] == vs[i].s
  {
    if vs == [] then [] else [vs[0].s] + Strings(vs[1..])
  }

  function OptionalText(m: map<string, Value>, key: string): Option<string>
    requires TextOrAbsent(m, key)
  {
    if key in m then Some(m[key].s) else None
  }

  function AttachmentOf(v: Value): LlmGenerator.AttachmentIn
    requires IsAttachment(v)
  {
    LlmGenerator.AttachmentIn(OptionalText(v.fields, "name"), OptionalText(v.fields, "url"))
  }

  function Attachments(vs: seq<Value>): (r: seq<LlmGenerator.AttachmentIn>)
    requires forall v :: v in vs ==> IsAttachment(v)
    ensures |r| == |vs|
  {
    if vs == [] then [] else [AttachmentOf(vs[0])] + Attachments(vs[1..])
  }

  /** `data.get(key)` with `None` read as JSON null. */
  function Field(m: map<string, Value>, key: string): Value {
    if key in m then m[key] else Null
  }

  /** The request once it is known to be well formed. */
  datatype Request = Request(
    email: Value, task: string, round: Value, nonce: Value, brief: string,
    checks: seq<string>, evaluationUrl: Value,
    attachments: Option<seq<LlmGenerator.AttachmentIn>>)

  /** `data.get(...)` for every field, with `checks` and `attachments`
      defaulting to the empty list. */
  function RequestOf(v: Value): (r: Request)
    requires WellFormed(v)
    ensures r.round == RoundOf(v.fields)
  {
    var m := v.fields;
    Request(
      Field(m, "email"), Text(m, "task"), RoundOf(m), Field(m, "nonce"), Text(m, "brief"),
      if "checks" in m then Strings(m["checks"].items) else [],
      Field(m, "evaluation_url"),
      if "attachments" !in m then Some([])
      else if m["attachments"] == Null then None
      else Some(Attachments(m["attachments"].items)))
  }

  // ---------------------------------------------------------------------
  // The evaluation callback (`notify_evaluation_api`)

  /** What one POST to the evaluation URL does: answer with a status, or
      raise a `RequestException`. */
  datatype PostOutcome = StatusCode(code: int) | RequestError

  /** The JSON body every attempt posts. */
  datatype Callback = Callback(
    email: Value, task: string, round: Value, nonce: Value,
    repoUrl: string, commitSha: nat, pagesUrl: string)

  /** What a round posts once its repository is deployed. */
  function CallbackOf(req: Request, info: GitHubManager.RepoInfo): (c: Callback)
    ensures c.task == req.task && c.round == req.round && c.commitSha == info.commitSha
  {
    Callback(req.email, req.task, req.round, req.nonce, info.repoUrl, info.commitSha, info.pagesUrl)
  }

  /** Whether some attempt of the callback, with the given retry delays,
      answers 200. */
  predicate CallbackAccepted(posts: nat -> PostOutcome, retryDelays: seq<int>) {
    FirstOk(posts, 0, 1 + |retryDelays|) < 1 + |retryDelays|
  }

  /** The delay before each attempt: none before the first. */
  function Schedule(retryDelays: seq<int>): (s: seq<int>)
    ensures |s| == 1 + |retryDelays| && s[0] == 0 && s[1..] == retryDelays
  {
    [0] + retryDelays
  }

  /** The sleeps among a prefix of the schedule: only positive delays are
      slept, in order. */
  function Sleeps(delays: seq<int>): (r: seq<int>)
    ensures forall k :: k in r ==> k > 0 && k in delays
  {
    if delays == [] then []
    else Sleeps(delays[..|delays| - 1]) + (if delays[|delays| - 1] > 0 then [delays[|delays| - 1]] else [])
  }

  function Sum(xs: seq<int>): int {
    if xs == [] then 0 else xs[0] + Sum(xs[1..])
  }

  /** The first attempt in `k..n` whose POST answers 200, or `n`. */
  function FirstOk(posts: nat -> PostOutcome, k: nat, n: nat): (r: nat)
    requires k <= n
    decreases n - k
    ensures k <= r <= n
    ensures r < n ==> posts(r) == StatusCode(200)
    ensures forall i :: k <= i < r ==> posts(i) != StatusCode(200)
  {
    if k == n then n
    else if posts(k) == StatusCode(200) then k
    else FirstOk(posts, k + 1, n)
  }

  /** `notify_evaluation_api(...)`: post the payload after each scheduled
      delay until an attempt answers 200.  `posts(i)` is what attempt `i`
      gets back.  Returns whether one did, the requests sent and the sleeps
      taken. */
  method NotifyEvaluationApi(payload: Callback, retryDelays: seq<int>, posts: nat -> PostOutcome)
    returns (ok: bool, sent: seq<Callback>, slept: seq<int>)
    ensures var n := 1 + |retryDelays|; var f := FirstOk(posts, 0, n);
      && (ok <==> f < n)
      && |sent| == (if ok then f + 1 else n)
    ensures forall i :: 0 <= i < |sent| ==> sent[i] == payload
    ensures slept == Sleeps(Schedule(retryDelays)[..|sent|])
  {
    var schedule := [0] + retryDelays;
    sent := [];
    slept := [];
    for i := 0 to |schedule|
      invariant |sent| == i && forall j :: 0 <= j < i ==> sent[j] == payload
      invariant FirstOk(posts, 0, |schedule|) >= i
      invariant slept == Sleeps(schedule[..i])
    {
      assert schedule[..i + 1][..i] == schedule[..i];
      if schedule[i] > 0 {
        slept := slept + [schedule[i]];
      }
      sent := sent + [payload];
      if posts(i) == StatusCode(200) {
        return true, sent, slept;
      }
    }
    assert schedule[..|schedule|] == schedule;
    return false, sent, slept;
  }

  /** With the configured schedule the callback never sleeps before its
      first attempt, and before retry `k` it sleeps the `k`-th delay. */
  lemma {:induction false} ConfiguredSleeps(attempts: nat)
    requires 1 <= attempts <= 1 + |Config.RetryDelays|
    ensures Sleeps(Schedule(Config.RetryDelays)[..attempts]) == Config.RetryDelays[..attempts - 1]
  {
    var s := Schedule(Config.RetryDelays);
    if attempts == 1 {
      assert s[..1] == [0];
      assert Sleeps([0]) == Sleeps([]) + [];
    } else {
      ConfiguredSleeps(attempts - 1);
      assert s[..attempts][..attempts - 1] == s[..attempts - 1];
      assert s[attempts - 1] == Config.RetryDelays[attempts - 2] > 0;
      assert Config.RetryDelays[..attempts - 1] == Config.RetryDelays[..attempts - 2] + [Config.RetryDelays[attempts - 2]];
    }
  }

  /** Three failed attempts (an error status, a network error, another
      error status) and then a 200: four attempts, after sleeping 1, 2 and
      4 seconds. */
  lemma FourthAttemptSucceeds(posts: nat -> PostOutcome)
    requires posts(0) == StatusCode(500) && posts(1) == RequestError
    requires posts(2) == StatusCode(503) && posts(3) == StatusCode(200)
    ensures FirstOk(posts, 0, 1 + |Config.RetryDelays|) == 3
    ensures Sleeps(Schedule(Config.RetryDelays)[..4]) == [1, 2, 4]
    ensures Sum(Sleeps(Schedule(Config.RetryDelays)[..4])) == 7
  {
    ConfiguredSleeps(4);
    assert Config.RetryDelays[..3] == [1, 2, 4];
    assert Sum([4]) == 4 && Sum([2, 4]) == 6;
  }

  /** When every attempt fails the callback gives up after the first
      attempt and one retry per configured delay: five attempts and
      15 seconds of sleep. */
  lemma AllAttemptsFail(posts: nat -> PostOutcome)
    requires forall i :: posts(i) != StatusCode(200)
    ensures FirstOk(posts, 0, 1 + |Config.RetryDelays|) == 5
    ensures Sum(Sleeps(Schedule(Config.RetryDelays)[..5])) == 15
  {
    ConfiguredSleeps(5);
    assert Config.RetryDelays[..4] == Config.RetryDelays;
    assert Sum([8]) == 8 && Sum([4, 8]) == 12 && Sum([2, 4, 8]) == 14;
  }

  // ---------------------------------------------------------------------
  // The service

  /** What the outside world does during one request: how each LLM
      provider answers, which GitHub calls fail, how the Pages API and the
      evaluation server answer, plus the decoders and the text templates. */
  datatype World = World(
    gemini: LlmGenerator.CallOutcome,
    aipipe: LlmGenerator.CallOutcome,
    faults: GitHubManager.Faults,
    pages: GitHubManager.PagesOutcome,
    posts: nat -> PostOutcome,
    codec: LlmGenerator.Codec,
    templates: LlmGenerator.Templates)

  /** An entry of `processed_tasks`. */
  datatype TaskRecord = TaskRecord(repoName: string, round1Completed: bool)

  /** The message of a Round 2 request whose repository is not there. */
  function NoSuchRepository(name: string): string {
    "Repository " + name + " does not exist. Round 1 must be completed first or task name is incorrect."
  }

  const NoExistingCode := "Could not retrieve existing code"

  /** `jsonify` of a round's result: 200 with the URLs, or 500 with the
      error message. */
  function Respond(round: Value, result: Result<GitHubManager.RepoInfo, string>): (reply: Reply)
    ensures reply.status == 200 <==> result.Success?
    ensures result.Success? ==> reply.body == Completed(round, result.value.repoUrl, result.value.pagesUrl)
    ensures result.Failure? ==> reply == Reply(500, Failed(result.error))
  {
    match result
    case Success(info) => Reply(200, Completed(round, info.repoUrl, info.pagesUrl))
    case Failure(e) => Reply(500, Failed(e))
  }

  /** The attachment entries the prompts and the README are built from. */
  function InfoOf(req: Request, w: World): seq<LlmGenerator.AttachmentInfo> {
    LlmGenerator.DescribeAll(LlmGenerator.Items(req.attachments), w.codec)
  }

  /** How Round 1's generation request goes with the given providers. */
  function CreateAttempt(g: LlmGenerator.Generator, req: Request, w: World): LlmGenerator.Attempt {
    LlmGenerator.Failover(g.primary, g.hasGemini, g.hasAipipe,
      w.templates.appPrompt(req.brief, req.checks, InfoOf(req, w)),
      Some(LlmGenerator.DefaultConfig), w.gemini, w.aipipe)
  }

  /** How Round 2's generation request goes for the existing page. */
  function UpdateAttempt(g: LlmGenerator.Generator, existing: string, req: Request, w: World): LlmGenerator.Attempt {
    LlmGenerator.Failover(g.primary, g.hasGemini, g.hasAipipe,
      w.templates.updatePrompt(existing, req.brief, req.checks, InfoOf(req, w)),
      Some(LlmGenerator.DefaultConfig), w.gemini, w.aipipe)
  }

  /** The page parsed out of a provider's reply. */
  function PageOf(response: GeminiResponse.Response): string {
    LlmGenerator.ExtractIndexHtml(LlmGenerator.ResponseText(response))
  }

  /** The files Round 1 pushes: the page, the README, the license. */
  function CreatedFiles(response: GeminiResponse.Response, req: Request, w: World): FileSet {
    [("index.html", PageOf(response)),
     ("README.md", w.templates.readme(req.brief, req.checks, Some(req.task), InfoOf(req, w))),
     ("LICENSE", w.templates.license)]
  }

  /** The files Round 2 upserts: the page and a README for the updated brief. */
  function UpdatedFiles(response: GeminiResponse.Response, req: Request, w: World): FileSet {
    [("index.html", PageOf(response)),
     ("README.md", w.templates.readme("[Updated] " + req.brief, req.checks, Some(req.task), InfoOf(req, w)))]
  }

  /** `repo_exists(name)` in the account `repos`. */
  predicate Reachable(repos: map<string, GitHubManager.Repo>, name: string, w: World) {
    w.faults(GitHubManager.GetRepoCall(name)).None? && name in repos
  }

  /** `get_repo_file_content(name, 'index.html')`, with `None` read as the
      empty string (both fail `if not existing_code`). */
  function ExistingPage(repos: map<string, GitHubManager.Repo>, name: string, w: World): string
    requires Reachable(repos, name, w)
  {
    if w.faults(GitHubManager.GetContentsCall(name, "index.html")).None? && "index.html" in repos[name].files
    then repos[name].files["index.html"].content
    else ""
  }

  /** Every repository other than `name` is left as it was, and none is
      added or removed. */
  ghost predicate KeepsOthers(before: map<string, GitHubManager.Repo>, after: map<string, GitHubManager.Repo>,
                              name: string) {
    && (forall n :: n in before <==> n in after)
    && (forall n :: n in after && n != name ==> after[n] == before[n])
  }

  /** After generation, Round 1 succeeds exactly when the repository can be
      created under a new name, each file can be created in it, and its
      commits can be read. */
  predicate CreationClear(repos: map<string, GitHubManager.Repo>, name: string, files: FileSet, w: World) {
    && w.faults(GitHubManager.CreateRepoCall(name)).None? && name !in repos
    && GitHubManager.CreatesClear(w.faults, name, files)
    && w.faults(GitHubManager.GetCommitsCall(name)).None?
  }

  /** After generation, Round 2 succeeds exactly when each file can be
      upserted into the repository and its commits can be read. */
  predicate UpdateClear(repos: map<string, GitHubManager.Repo>, name: string, files: FileSet, w: World)
    requires name in repos
  {
    GitHubManager.UpsertsClear(repos[name], name, files, w.faults)
    && w.faults(GitHubManager.GetCommitsCall(name)).None?
  }

  /** Whether Round 1 on `req` succeeds against the account `repos`: the
      app is generated and a new repository takes the files. */
  predicate RoundOneSucceeds(g: LlmGenerator.Generator, repos: map<string, GitHubManager.Repo>, req: Request, w: World) {
    var a := CreateAttempt(g, req, w);
    && a.result.Success? && req.task != []
    && CreationClear(repos, GitHubManager.RepoName(req.task).value, CreatedFiles(a.result.value, req, w), w)
  }

  /** Whether Round 2 on `req` succeeds against the account `repos`: the
      repository and its page are found, the update is generated and the
      files are upserted. */
  predicate RoundTwoSucceeds(g: LlmGenerator.Generator, repos: map<string, GitHubManager.Repo>, req: Request, w: World) {
    && req.task != []
    && var name := GitHubManager.RepoName(req.task).value;
    && Reachable(repos, name, w) && ExistingPage(repos, name, w) != ""
    && var a := UpdateAttempt(g, ExistingPage(repos, name, w), req, w);
    && a.result.Success?
    && UpdateClear(repos, name, UpdatedFiles(a.result.value, req, w), w)
  }

  /** The account after Round 1: every earlier repository as it was, and
      no repository added but the one named after the task. */
  ghost predicate CreatesOnly(before: map<string, GitHubManager.Repo>, after: map<string, GitHubManager.Repo>,
                              task: string) {
    && (forall n :: n in before ==> n in after && after[n] == before[n])
    && (forall n :: n in after ==> n in before || (task != [] && n == GitHubManager.RepoName(task).value))
  }

  /** What a successful Round 1 leaves: the repository named after the
      task holds exactly the generated files and `info` reports it. */
  ghost predicate RoundOneDeployed(g: LlmGenerator.Generator, github: GitHubManager.GitHubManager, req: Request,
                                   w: World, info: GitHubManager.RepoInfo)
    reads github
  {
    var a := CreateAttempt(g, req, w);
    && a.result.Success? && req.task != []
    && var name := GitHubManager.RepoName(req.task).value;
    && Deployed(github, name, info)
    && GitHubManager.Contents(github.repos[name]) == ToMap(CreatedFiles(a.result.value, req, w))
  }

  /** What a successful Round 2 leaves: the repository named after the
      task holds its old files overlaid with the updated page and README,
      and `info` reports it. */
  ghost predicate RoundTwoDeployed(g: LlmGenerator.Generator, before: map<string, GitHubManager.Repo>,
                                   github: GitHubManager.GitHubManager, req: Request, w: World,
                                   info: GitHubManager.RepoInfo)
    reads github
  {
    && req.task != []
    && var name := GitHubManager.RepoName(req.task).value;
    && Reachable(before, name, w) && ExistingPage(before, name, w) != ""
    && var a := UpdateAttempt(g, ExistingPage(before, name, w), req, w);
    && a.result.Success?
    && Deployed(github, name, info)
    && GitHubManager.Contents(github.repos[name]) ==
         GitHubManager.Contents(before[name]) + ToMap(UpdatedFiles(a.result.value, req, w))
  }

  /** `last_provider_used` after a generation attempt: the provider that
      served it, or what it was before when none did. */
  function ProviderAfter(previous: Option<string>, a: LlmGenerator.Attempt): (r: Option<string>)
    ensures a.result.Success? && a.servedBy.Some? ==> r == a.servedBy
    ensures a.servedBy.None? ==> r == previous
  {
    if a.servedBy.Some? then a.servedBy else previous
  }

  /** Round 1 pushes three distinct paths; the repository then holds the
      parsed page as `index.html` and the license text as `LICENSE`. */
  lemma CreatedFilesDistinct(response: GeminiResponse.Response, req: Request, w: World)
    ensures UniquePaths(CreatedFiles(response, req, w))
    ensures var m := ToMap(CreatedFiles(response, req, w));
      && m.Keys == {"index.html", "README.md", "LICENSE"}
      && m["index.html"] == PageOf(response) && m["LICENSE"] == w.templates.license
  {
    ThreeFiles(PageOf(response), w.templates.readme(req.brief, req.checks, Some(req.task), InfoOf(req, w)),
               w.templates.license);
  }

  lemma ThreeFiles(page: string, readme: string, license: string)
    ensures var fs := [("index.html", page), ("README.md", readme), ("LICENSE", license)];
      UniquePaths(fs) && ToMap(fs) == map["index.html" := page, "README.md" := readme, "LICENSE" := license]
  {
    var fs := [("index.html", page), ("README.md", readme), ("LICENSE", license)];
    assert fs[..0] == [];
    ToMapStep(fs, 0);
    ToMapStep(fs, 1);
    ToMapStep(fs, 2);
    assert fs[..3] == fs;
  }

  /** Round 2 upserts two distinct paths. */
  lemma UpdatedFilesDistinct(response: GeminiResponse.Response, req: Request, w: World)
    ensures UniquePaths(UpdatedFiles(response, req, w)) && |UpdatedFiles(response, req, w)| == 2
  {
  }

  /** Setting the README on the parsed page appends it. */
  lemma ReadmeAfterPage(page: string, readme: string)
    ensures Put([("index.html", page)], "README.md", readme) == [("index.html", page), ("README.md", readme)]
  {
    assert Paths([("index.html", page)]) == ["index.html"];
  }

  /** The repository `name` holds at least one commit and `info` reports
      its URL, its newest commit and its Pages URL. */
  ghost predicate Deployed(github: GitHubManager.GitHubManager, name: string, info: GitHubManager.RepoInfo)
    reads github
  {
    && name in github.repos && github.repos[name].commits != []
    && info == GitHubManager.RepoInfo(GitHubManager.HtmlUrl(github.login, name),
                                      github.repos[name].commits[0], GitHubManager.PagesUrl(github.login, name))
  }

  /** The module-level objects of app.py: the generator, the GitHub
      manager, the configured secret and retry schedule, and the
      `processed_tasks` dictionary. */
  class Service {
    const generator: LlmGenerator.Generator
    const github: GitHubManager.GitHubManager
    const secret: Option<string>
    const retryDelays: seq<int>
    var processedTasks: map<string, TaskRecord>

    constructor (generator: LlmGenerator.Generator, github: GitHubManager.GitHubManager, settings: Config.Settings)
      ensures this.generator == generator && this.github == github
      ensures secret == settings.studentSecret && retryDelays == settings.retryDelays
      ensures processedTasks == map[]
    {
      this.generator := generator;
      this.github := github;
      secret := settings.studentSecret;
      retryDelays := settings.retryDelays;
      processedTasks := map[];
    }

    /** `process_round_1(...)`: generate the app, create and deploy the
        repository, record the task, then notify the evaluation server.
        `notified` is the callback's result when it was made. */
    method ProcessRound1(req: Request, w: World)
      returns (result: Result<GitHubManager.RepoInfo, string>, ghost notified: Option<bool>, ghost sent: seq<Callback>)
      modifies this, generator, github
      ensures var a := CreateAttempt(generator, req, w);
        && (a.result.Failure? ==>
              result == Failure(a.result.error) && github.repos == old(github.repos))
        && (result.Success? ==>
              && a.result.Success? && req.task != []
              && Deployed(github, GitHubManager.RepoName(req.task).value, result.value)
              && GitHubManager.Contents(github.repos[GitHubManager.RepoName(req.task).value])
                 == ToMap(CreatedFiles(a.result.value, req, w)))
      ensures result.Success? ==>
        processedTasks == old(processedTasks)[req.task := TaskRecord(GitHubManager.RepoName(req.task).value, true)]
      ensures result.Failure? ==> processedTasks == old(processedTasks)
      ensures forall n :: n in old(github.repos) ==> n in github.repos && github.repos[n] == old(github.repos)[n]
      ensures result.Success? <==> RoundOneSucceeds(generator, old(github.repos), req, w)
      ensures result.Success? ==> RoundOneDeployed(generator, github, req, w, result.value)
      ensures CreatesOnly(old(github.repos), github.repos, req.task)
      ensures generator.lastProviderUsed ==
        ProviderAfter(old(generator.lastProviderUsed), CreateAttempt(generator, req, w))
      ensures notified == (if result.Success? then Some(CallbackAccepted(w.posts, retryDelays)) else None)
      ensures result.Success? ==> |sent| >= 1 && forall i :: 0 <= i < |sent| ==> sent[i] == CallbackOf(req, result.value)
      ensures result.Failure? ==> sent == []
    {
      notified, sent := None, [];
      var files := generator.GenerateApp(req.brief, req.checks, req.attachments, Some(req.task),
                                         w.codec, w.templates, w.gemini, w.aipipe);
      if files.Failure? {
        return Failure(files.error), notified, sent;
      }
      CreatedFilesDistinct(CreateAttempt(generator, req, w).result.value, req, w);
      result, notified, sent := DeployAndNotify(req, w, files.value);
    }

    /** Steps 2 to 4 of `process_round_1`: create and deploy the repository
        for the generated files, record the task, then notify the
        evaluation server. */
    method DeployAndNotify(req: Request, w: World, files: FileSet)
      returns (result: Result<GitHubManager.RepoInfo, string>, ghost notified: Option<bool>, ghost sent: seq<Callback>)
      requires UniquePaths(files) && |files| > 0
      modifies this, github
      ensures forall n :: n in old(github.repos) ==> n in github.repos && github.repos[n] == old(github.repos)[n]
      ensures CreatesOnly(old(github.repos), github.repos, req.task)
      ensures result.Success? <==>
        req.task != [] && CreationClear(old(github.repos), GitHubManager.RepoName(req.task).value, files, w)
      ensures result.Success? ==>
        && Deployed(github, GitHubManager.RepoName(req.task).value, result.value)
        && GitHubManager.Contents(github.repos[GitHubManager.RepoName(req.task).value]) == ToMap(files)
        && processedTasks == old(processedTasks)[req.task := TaskRecord(GitHubManager.RepoName(req.task).value, true)]
      ensures result.Failure? ==> processedTasks == old(processedTasks)
      ensures notified == (if result.Success? then Some(CallbackAccepted(w.posts, retryDelays)) else None)
      ensures result.Success? ==> |sent| >= 1 && forall i :: 0 <= i < |sent| ==> sent[i] == CallbackOf(req, result.value)
      ensures result.Failure? ==> sent == []
    {
      notified, sent := None, [];
      var info := github.CreateAndDeployRepo(req.task, files, w.faults, w.pages);
      if info.Failure? {
        return Failure(info.error), notified, sent;
      }
      var name := GitHubManager.RepoName(req.task).value;
      processedTasks := processedTasks[req.task := TaskRecord(name, true)];
      var payload := Callback(req.email, req.task, req.round, req.nonce,
                              info.value.repoUrl, info.value.commitSha, info.value.pagesUrl);
      var ok, posted, _ := NotifyEvaluationApi(payload, retryDelays, w.posts);
      notified, sent := Some(ok), posted;
      return Success(info.value), notified, sent;
    }

    /** `process_round_2(...)`: find the Round 1 repository and its page,
        ask for the updated page, add a README for the updated brief, upsert
        both, then notify the evaluation server.  `asked` says whether the
        LLM was consulted. */
    method ProcessRound2(req: Request, w: World)
      returns (result: Result<GitHubManager.RepoInfo, string>, ghost asked: bool, ghost notified: Option<bool>,
               ghost sent: seq<Callback>)
      modifies generator, github
      ensures req.task == [] ==>
        result == Failure(GitHubManager.EmptyNameError) && !asked && github.repos == old(github.repos)
      ensures req.task != [] ==>
        var name := GitHubManager.RepoName(req.task).value;
        && (!Reachable(old(github.repos), name, w) ==>
              result == Failure(NoSuchRepository(name)) && !asked && github.repos == old(github.repos))
        && (Reachable(old(github.repos), name, w) && ExistingPage(old(github.repos), name, w) == "" ==>
              result == Failure(NoExistingCode) && !asked && github.repos == old(github.repos))
        && (result.Success? ==>
              && asked && Reachable(old(github.repos), name, w)
              && var a := UpdateAttempt(generator, ExistingPage(old(github.repos), name, w), req, w);
              && a.result.Success?
              && Deployed(github, name, result.value)
              && GitHubManager.Contents(github.repos[name]) ==
                   GitHubManager.Contents(old(github.repos)[name]) + ToMap(UpdatedFiles(a.result.value, req, w)))
      ensures req.task != [] ==> KeepsOthers(old(github.repos), github.repos, GitHubManager.RepoName(req.task).value)
      ensures result.Success? <==> RoundTwoSucceeds(generator, old(github.repos), req, w)
      ensures result.Success? ==> RoundTwoDeployed(generator, old(github.repos), github, req, w, result.value)
      ensures !asked ==> generator.lastProviderUsed == old(generator.lastProviderUsed)
      ensures asked ==>
        && req.task != [] && Reachable(old(github.repos), GitHubManager.RepoName(req.task).value, w)
        && var page := ExistingPage(old(github.repos), GitHubManager.RepoName(req.task).value, w);
        && generator.lastProviderUsed == ProviderAfter(old(generator.lastProviderUsed), UpdateAttempt(generator, page, req, w))
      ensures notified == (if result.Success? then Some(CallbackAccepted(w.posts, retryDelays)) else None)
      ensures result.Success? ==> |sent| >= 1 && forall i :: 0 <= i < |sent| ==> sent[i] == CallbackOf(req, result.value)
      ensures result.Failure? ==> sent == []
    {
      asked, notified, sent := false, None, [];
      var found := FindExistingPage(req.task, w);
      if found.Failure? {
        return Failure(found.error), asked, notified, sent;
      }
      var (name, existing) := found.value;
      asked := true;
      result, notified, sent := UpdateExistingApp(req, w, name, existing);
    }

    /** Steps 2 to 4 of `process_round_2`: ask for the updated page, add a
        README for the updated brief, upsert both into the repository, then
        notify the evaluation server. */
    method UpdateExistingApp(req: Request, w: World, name: string, existing: string)
      returns (result: Result<GitHubManager.RepoInfo, string>, ghost notified: Option<bool>, ghost sent: seq<Callback>)
      requires Reachable(github.repos, name, w)
      modifies generator, github
      ensures KeepsOthers(old(github.repos), github.repos, name)
      ensures generator.lastProviderUsed ==
        ProviderAfter(old(generator.lastProviderUsed), UpdateAttempt(generator, existing, req, w))
      ensures var a := UpdateAttempt(generator, existing, req, w);
        && (result.Success? <==> a.result.Success? && UpdateClear(old(github.repos), name, UpdatedFiles(a.result.value, req, w), w))
        && (result.Success? ==>
              && Deployed(github, name, result.value)
              && GitHubManager.Contents(github.repos[name]) ==
                   GitHubManager.Contents(old(github.repos)[name]) + ToMap(UpdatedFiles(a.result.value, req, w)))
      ensures notified == (if result.Success? then Some(CallbackAccepted(w.posts, retryDelays)) else None)
      ensures result.Success? ==> |sent| >= 1 && forall i :: 0 <= i < |sent| ==> sent[i] == CallbackOf(req, result.value)
      ensures result.Failure? ==> sent == []
    {
      notified, sent := None, [];
      ghost var a := UpdateAttempt(generator, existing, req, w);
      var files := generator.UpdateApp(existing, req.brief, req.checks, req.attachments,
                                       w.codec, w.templates, w.gemini, w.aipipe);
      if files.Failure? {
        return Failure(files.error), notified, sent;
      }
      var info := LlmGenerator.ProcessAttachments(req.attachments, w.codec);
      var readme := w.templates.readme("[Updated] " + req.brief, req.checks, Some(req.task), info);
      ReadmeAfterPage(PageOf(a.result.value), readme);
      var updated := Put(files.value, "README.md", readme);
      assert updated == UpdatedFiles(a.result.value, req, w);
      UpdatedFilesDistinct(a.result.value, req, w);
      var repo := github.UpdateRepo(name, updated, w.faults);
      if repo.Failure? {
        return Failure(repo.error), notified, sent;
      }
      var payload := Callback(req.email, req.task, req.round, req.nonce,
                              repo.value.repoUrl, repo.value.commitSha, repo.value.pagesUrl);
      var ok, posted, _ := NotifyEvaluationApi(payload, retryDelays, w.posts);
      notified, sent := Some(ok), posted;
      return Success(repo.value), notified, sent;
    }

    /** The checks `process_round_2` makes before asking for an update: the
        derived repository must exist and its `index.html` must be readable
        and non-empty.  Returns the repository name and the page. */
    method FindExistingPage(task: string, w: World) returns (r: Result<(string, string), string>)
      ensures task == [] ==> r == Failure(GitHubManager.EmptyNameError)
      ensures task != [] ==>
        var name := GitHubManager.RepoName(task).value;
        && (!Reachable(github.repos, name, w) ==> r == Failure(NoSuchRepository(name)))
        && (Reachable(github.repos, name, w) && ExistingPage(github.repos, name, w) == "" ==>
              r == Failure(NoExistingCode))
        && (r.Success? <==> Reachable(github.repos, name, w) && ExistingPage(github.repos, name, w) != "")
        && (r.Success? ==> r.value == (name, ExistingPage(github.repos, name, w)))
    {
      var named := GitHubManager.RepoName(task);
      if named.Failure? {
        return Failure(named.error);
      }
      var name := named.value;
      var found := github.RepoExists(name, w.faults);
      if !found {
        return Failure(NoSuchRepository(name));
      }
      var existing := github.GetRepoFileContent(name, "index.html", w.faults);
      if existing.None? || existing.value == "" {
        return Failure(NoExistingCode);
      }
      return Success((name, existing.value));
    }

    /** `api_endpoint()`: screen the request, run the round it asks for and
        turn the round's result into a reply.  `body` is what
        `request.get_json()` returns.  `outcome` is the round's result when a
        round ran. */
    method ApiEndpoint(body: Option<Value>, w: World)
      returns (reply: Reply, ghost outcome: Option<Result<GitHubManager.RepoInfo, string>>, ghost ranRoundOne: bool)
      requires Screen(body, secret).None? ==> WellFormed(body.value)
      modifies this, generator, github
      ensures Screen(body, secret).Some? ==>
        && reply == Screen(body, secret).value && outcome.None?
        && processedTasks == old(processedTasks)
        && github.repos == old(github.repos)
        && generator.lastProviderUsed == old(generator.lastProviderUsed)
      ensures Screen(body, secret).None? ==>
        var req := RequestOf(body.value);
        && outcome.Some? && reply == Respond(RoundOf(body.value.fields), outcome.value)
        && (ranRoundOne <==> IsRoundOne(RoundOf(body.value.fields)))
        && (ranRoundOne ==> (outcome.value.Success? <==> RoundOneSucceeds(generator, old(github.repos), req, w)))
        && (!ranRoundOne ==> (outcome.value.Success? <==> RoundTwoSucceeds(generator, old(github.repos), req, w)))
        && (ranRoundOne && req.task != [] && outcome.value.Success? ==>
              processedTasks == old(processedTasks)[req.task := TaskRecord(GitHubManager.RepoName(req.task).value, true)])
        && (outcome.value.Failure? ==> processedTasks == old(processedTasks))
        && (ranRoundOne ==> CreatesOnly(old(github.repos), github.repos, req.task))
        && (ranRoundOne && outcome.value.Success? ==> RoundOneDeployed(generator, github, req, w, outcome.value.value))
        && (!ranRoundOne && req.task == [] ==> github.repos == old(github.repos))
        && (!ranRoundOne && req.task != [] ==>
              KeepsOthers(old(github.repos), github.repos, GitHubManager.RepoName(req.task).value))
        && (!ranRoundOne && outcome.value.Success? ==>
              RoundTwoDeployed(generator, old(github.repos), github, req, w, outcome.value.value))
      ensures !(Screen(body, secret).None? && IsRoundOne(RoundOf(body.value.fields))) ==>
        processedTasks == old(processedTasks)
      ensures forall n :: n in old(github.repos) ==> n in github.repos
    {
      var screened := Screen(body, secret);
      if screened.Some? {
        return screened.value, None, false;
      }
      var req := RequestOf(body.value);
      var result;
      ghost var asked, notified, sent;
      var roundOne := IsRoundOne(req.round);
      ranRoundOne := roundOne;
      if roundOne {
        result, notified, sent := ProcessRound1(req, w);
      } else {
        result, asked, notified, sent := ProcessRound2(req, w);
      }
      return Respond(req.round, result), Some(result), ranRoundOne;
    }
  }
}
