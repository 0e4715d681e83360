# LLM code-deployment service, modelled in Dafny

The service is a Flask application. It receives a task over
`POST /api-endpoint`, asks an LLM for a single-page web app, and publishes
that app to a new GitHub repository with GitHub Pages. It then reports the
repository to an evaluation server. A second round updates the repository
created by the first.

This project models the decision logic of the five core files:

- **`config.py` → `Config`:**
  - the environment settings and the `USE_AIPIPE`/`DEBUG` flags;
  - the retry schedule `[1, 2, 4, 8]`;
  - `Config.validate`, with its ordered list of missing settings.
- **`aipipe_generator.py` → `AIpipeGenerator`:** the chat request body, and the `AIpipeResponse` normaliser that turns an OpenRouter reply into a Gemini-shaped reply.
- **`llm_generator.py` → `LlmGenerator`:**
  - primary-provider selection;
  - the asymmetric Gemini/AIpipe failover, with its `last_provider_used` bookkeeping;
  - data-URL attachment decoding;
  - reading the text of a reply;
  - the code-fence scanner that extracts `index.html`;
  - the file sets that `generate_app` and `update_app` return.
- **`github_manager.py` → `GitHubManager`:**
  - repository naming;
  - the remote account, as a map from repository name to files (content and sha) and commits;
  - create, update and get calls that can fail;
  - the push and upsert loops;
  - Pages enabling, and the two public queries.
- **`app.py` → `App`:**
  - the request screening (400 / 403 / 400 / 500) and round dispatch;
  - the two rounds, the `processed_tasks` dictionary and the 200/500 reply mapping;
  - the bounded retry loop of the evaluation callback.

Shared helpers:

- `PyString`: CPython `str` semantics for `find` with a negative start, slicing with a `-1` bound, `strip` over Unicode whitespace, `split(c, 1)` and `join`.
- `FileSets`: the insertion-ordered `files` dictionary, as a sequence of (path, content) pairs.
- `GeminiResponse`: the reply shape.
- `Wrappers`: `Option` and `Result`.

Everything outside the process is an input of the model:

- **LLM calls:** each provider call is `Ok(response) | Err(message)`.
- **GitHub:** a function says which remote call fails, and with which status.
- **Pages API:** a status, or an exception.
- **Evaluation server:** one outcome per attempt.
- **Decoders:** the base64 and UTF-8 decoders are given functions.
- **Text templates:** the prompt, README and license texts are opaque functions of their inputs.

In `App`, a `World` record bundles all of these for one request.

## Model

| member | source | states |
|---|---|---|
| Config.Flag | config.py:26-30 | A flag is true exactly when the variable is set to the four letters t-r-u-e in any mix of cases; unset means false |
| Config.Validate | config.py:37-60 | Returns True exactly when no setting is missing; otherwise fails with the message naming the missing settings, in order |
| Config.UnsetOfRequired | config.py:39-52 | The `getattr` loop over `required` yields exactly the missing list; once appended, the combined LLM entry is always reported, since it has no attribute |
| Config.MissingCases | config.py:39-58 | Validation fails iff the student secret, the GitHub token or the username is falsy, or both LLM credentials are; the LLM entry comes last; at most four entries |
| Config.Load | config.py:11-67 | Importing the module reads every setting (flags parsed, retry delays `[1, 2, 4, 8]`); a validation failure is reported, not raised |
| AIpipeGenerator.ChatPayload | aipipe_generator.py:32-42 | The request carries one user message with the prompt, temperature 0.7 and 8192 tokens, whatever the caller wanted |
| AIpipeGenerator.Normalize | aipipe_generator.py:57-85 | The text is the first choice's message content when present, else ""; exactly one candidate, whose part carries the text; one part iff the text is non-empty |
| AIpipeGenerator.AsResponse | aipipe_generator.py:57-87 | Through the Gemini reply shape, the wrapper's `text` attribute always reads successfully |
| LlmGenerator.AIpipeOutcome | aipipe_generator.py:44-94 | An AIpipe call succeeds iff its HTTP exchange does, and the generator then sees the normalised text |
| LlmGenerator.SelectPrimary | llm_generator.py:38-49 | AIpipe when preferred and configured, else Gemini when configured, else AIpipe when configured, else no provider (construction raises); the primary is always configured |
| LlmGenerator.SelectionAgreesWithValidation | llm_generator.py:32-49 | Construction fails exactly when `Config.validate` reports the combined LLM entry |
| LlmGenerator.Generator.constructor | llm_generator.py:26-49 | The generator records the configured providers and the selected primary; `last_provider_used` starts unset |
| LlmGenerator.Generator.Create | llm_generator.py:26-49 | Construction raises the no-provider `ValueError` iff neither provider is configured; otherwise a fresh generator with the selected primary |
| LlmGenerator.Generator.GenerateWithFallback | llm_generator.py:51-117 | The result and the calls made are those of the failover policy; `last_provider_used` changes only on success, to the provider that served |
| LlmGenerator.GeminiFallsBackOnlyOnTransientErrors | llm_generator.py:69-87 | After a Gemini failure, AIpipe is tried iff the error text has a quota/timeout keyword and AIpipe is configured; otherwise the run fails with the Gemini error alone |
| LlmGenerator.AIpipeAlwaysFallsBack | llm_generator.py:96-115 | After an AIpipe failure, Gemini is tried whatever the error, with the caller's configuration |
| LlmGenerator.CallsRespectProviders | llm_generator.py:59-115 | The primary is called first; each provider is called at most once, and only if configured; AIpipe never receives the generation config and Gemini always does |
| LlmGenerator.SuccessComesFromLastCall | llm_generator.py:56-117 | A run succeeds iff its last call succeeds, and then returns that reply and records a provider; a failed run had every call fail |
| LlmGenerator.FailureListsAttemptsInOrder | llm_generator.py:71-115 | The raised message is "Both providers failed: " and the failure notes joined by "; " in the order the calls were made |
| LlmGenerator.TransientIgnoresCase | llm_generator.py:75 | Keyword matching ignores case: a text and its lower-case form, and any two texts equal up to the case of their letters, are classified alike |
| LlmGenerator.TransientByPrefix | llm_generator.py:75 | A text whose lower-case form starts with one of `quota`, `timeout`, `429`, `504`, `exceeded` is transient |
| LlmGenerator.Describe | llm_generator.py:177-204 | A data URL gives one entry with its name and URL; an error entry iff there is no comma or base64 fails; otherwise the decoded size, and a preview iff the MIME type starts with "text" |
| LlmGenerator.MimeOfDataUrl | llm_generator.py:185-186 | For `data:<mime>;...` or `data:<mime>,...`, the MIME type is the text between the first ':' and the first ';' (or the comma) |
| LlmGenerator.DescribeAll | llm_generator.py:171-206 | No more entries than attachments, and every entry comes from a data URL |
| LlmGenerator.OneEntryPerDataUrl | llm_generator.py:177-204 | Each data-URL attachment yields exactly one entry, even when decoding fails; others are dropped |
| LlmGenerator.ProcessAttachments | llm_generator.py:171-206 | The loop returns the entries for the data-URL attachments in order; `None` or an empty list gives none |
| LlmGenerator.JoinPartTexts | llm_generator.py:265-269 | The loop concatenates the texts of the parts that have one, in order |
| LlmGenerator.ExtractResponseText | llm_generator.py:255-280 | The reply text: `response.text` when readable, else the parts' texts, else the first candidate's parts' texts, else `str(response)` |
| LlmGenerator.AIpipeTextSurvives | llm_generator.py:259-277 | Whichever way the reply is read, an AIpipe reply yields exactly AIpipe's text |
| LlmGenerator.ParseResponse | llm_generator.py:282-305 | The parsed file set has exactly the one path `index.html` |
| LlmGenerator.HtmlBlock | llm_generator.py:287-292 | With an `html`-tagged fence and a closing fence, the page is the stripped text between them |
| LlmGenerator.HtmlBlockUnclosed | llm_generator.py:289-291 | With no closing fence, `find` gives -1 and the page drops the reply's final character |
| LlmGenerator.GenericBlock | llm_generator.py:293-300 | With only an untagged fence, the page is the stripped text from the line break after it to the next fence |
| LlmGenerator.GenericBlockUnclosed | llm_generator.py:295-300 | An untagged block with no closing fence also loses the reply's last character |
| LlmGenerator.GenericBlockWithoutNewline | llm_generator.py:295-300 | An untagged fence with no line break after it gives an empty page |
| LlmGenerator.NoBlock | llm_generator.py:301-303 | Without any fence, the page is the whole reply stripped |
| LlmGenerator.HtmlBlockRoundTrip | llm_generator.py:287-292 | Wrapping a page without backticks in one `html` block and parsing it returns the page, stripped |
| LlmGenerator.Generator.GenerateApp | llm_generator.py:119-169 | Fails with the failover error, or returns exactly `index.html` (the parsed reply), `README.md` and `LICENSE`, in that order |
| LlmGenerator.Generator.AddedAfterPage | llm_generator.py:158-166 | Setting README.md and then LICENSE on the parsed page appends them, in that order |
| LlmGenerator.Generator.UpdateApp | llm_generator.py:410-482 | Fails with the failover error, or returns exactly `index.html`, parsed from a reply to the update prompt built from the existing code |
| GitHubManager.RepoName | github_manager.py:99-106 | Fails iff the task id is empty; otherwise the cleaned id, prefixed with `task-` unless it starts with a letter; always letter-first, no '_', ' ' or upper case |
| GitHubManager.RepoNameIdempotent | github_manager.py:99-106 | A produced name maps to itself: naming is a normal form |
| GitHubManager.OnlySpaceIsReplaced | github_manager.py:102 | A space becomes '-' but a tab survives |
| GitHubManager.NamesCollide | github_manager.py:102-105 | `a_b` and `a b` share the repository `a-b`; `42` becomes `task-42` |
| GitHubManager.UpsertByEntry | github_manager.py:129-151 | Whether an upsert fails depends only on what the repository holds at that path |
| GitHubManager.LaterEntriesKept | github_manager.py:129-151 | Writing one path leaves every other distinct path as it was |
| GitHubManager.UpsertSucceedsWithoutFaults | github_manager.py:128-151 | With no injected fault, upserting a path succeeds whether or not the file exists |
| GitHubManager.GitHubManager.constructor | github_manager.py:12-15 | The manager holds the login and the account's repositories |
| GitHubManager.GitHubManager.CreateFile | github_manager.py:114-118 | Creating fails with the injected status or 422 for an existing path and changes nothing; otherwise the file holds the content and one commit is added |
| GitHubManager.GitHubManager.UpdateFile | github_manager.py:134-139 | Updating fails with the injected status, 404 for an absent path or 409 for a stale sha; otherwise the file holds the content and one commit is added |
| GitHubManager.GitHubManager.GetContents | github_manager.py:132 | Gets the file, or fails with the injected status or 404 |
| GitHubManager.GitHubManager.PushFiles | github_manager.py:108-122 | Creates files in order and stops at the first failure, whose status is raised; earlier files stay (no rollback); into an empty repository with distinct paths, all succeed iff no `create_file` call fails |
| GitHubManager.GitHubManager.Upsert | github_manager.py:129-151 | Looks the file up and updates it under its sha; a 404 from the lookup or from the update creates it instead; any other status is raised and nothing changes; on success exactly that path is written with one new commit |
| GitHubManager.GitHubManager.UpdateFiles | github_manager.py:124-154 | Upserts files in order and stops at the first failure, whose status is raised; written paths hold their content, other paths and repositories are untouched; with distinct paths, all succeed iff each path's upsert into the original repository succeeds |
| GitHubManager.GitHubManager.LatestCommit | github_manager.py:46 | The newest commit's sha, or the error |
| GitHubManager.GitHubManager.EnablePages | github_manager.py:156-196 | Never fails: 201 means enabled, 409 already enabled, anything else (or an exception) only warns; the Pages URL is returned in every case |
| GitHubManager.GitHubManager.CreateAndDeployRepo | github_manager.py:17-60 | Empty id → the name error; an existing name → 422; existing repositories are never changed; on success the new repository holds exactly the files, with their newest commit and Pages URL; with a non-empty id and a non-empty list of distinct paths, it succeeds iff `create_repo` does not fail, the name is new, no `create_file` fails and the commits can be read |
| GitHubManager.GitHubManager.PushAndPublish | github_manager.py:42-56 | On success the new repository holds exactly the pushed files and the reply names its newest commit; with a non-empty list of distinct paths, it succeeds iff no `create_file` fails and the commits can be read |
| GitHubManager.GitHubManager.Publish | github_manager.py:45-56 | Succeeds iff the commit listing succeeds and is non-empty; the reply carries the HTML URL, the newest commit and the Pages URL |
| GitHubManager.GitHubManager.UpdateRepo | github_manager.py:62-97 | A missing repository gives 404 and changes nothing; on success the repository's old files overlaid with the given files, the newest commit, and the same Pages URL as on creation; with a non-empty list of distinct paths, it succeeds iff the repository is reachable, every upsert succeeds and the commits can be read |
| GitHubManager.GitHubManager.GetRepoFileContent | github_manager.py:198-215 | The file's content iff the repository and file can be read, `None` on any error instead of raising |
| GitHubManager.GitHubManager.RepoExists | github_manager.py:217-223 | True iff `get_repo` succeeds |
| App.Unfilled | app.py:81 | A field is reported iff it is required and absent or falsy |
| App.Screen | app.py:51-127 | A request goes on to a round iff the payload is a dictionary with the right secret and every required field truthy; every rejection is 400, 403 or 500 |
| App.ScreeningOrder | app.py:55-83 | An empty payload gives 400 whatever else holds; a wrong secret gives 403 before fields are looked at; only then do missing fields give 400 |
| App.MissingFieldsInOrder | app.py:80-83 | The missing list holds, in the order email, task, nonce, brief, evaluation_url, exactly the absent or falsy fields |
| App.UnsetSecretAcceptsAnonymousRequests | app.py:129-131 | Plain equality: with no secret configured, a request without a secret (or with null) passes and any string fails |
| App.RoundDispatch | app.py:72-100 | Round 1 runs iff `round` is absent, 1 or true; the string "1" runs Round 2 |
| App.RequestOf | app.py:70-77 | The round read from the request defaults to 1; `email`, `nonce` and `evaluation_url` are passed on whatever their type |
| App.Respond | app.py:102-117 | 200 with the repository and Pages URLs iff the round succeeded, otherwise 500 with its error |
| App.CallbackOf | app.py:163-172 | The posted payload carries the request's task and round and the deployed commit |
| App.Sleeps | app.py:290-293 | Only positive delays are slept, each taken from the schedule |
| App.NotifyEvaluationApi | app.py:272-314 | Posts the same payload until the first 200, at most `1 + len(RETRY_DELAYS)` times; true iff some attempt got 200; sleeps only before retries |
| App.ConfiguredSleeps | app.py:290-293 | With `[1, 2, 4, 8]`, no sleep before the first attempt, and the k-th delay before retry k |
| App.FourthAttemptSucceeds | app.py:290-311 | Failures 500, a network error and 503, then 200: four attempts after sleeping 1, 2 and 4 seconds |
| App.AllAttemptsFail | app.py:290-314 | When nothing answers 200, the loop gives up after five attempts and 15 seconds of sleep |
| App.CreatedFilesDistinct | llm_generator.py:155-168 | Round 1 pushes three distinct paths; the repository then holds the parsed page as `index.html` and the license as `LICENSE` |
| App.ThreeFiles | llm_generator.py:155-168 | Three distinct paths map to exactly their own contents |
| App.UpdatedFilesDistinct | app.py:219-232 | Round 2 upserts two distinct paths |
| App.ReadmeAfterPage | app.py:226-232 | Setting the README on the updated page appends it after `index.html` |
| App.ProviderAfter | llm_generator.py:60-113 | `last_provider_used` is the provider that served the attempt, or its previous value when none did |
| App.Service.constructor | app.py:17-22 | The service starts with the configured secret and retry delays and an empty `processed_tasks` |
| App.Service.ProcessRound1 | app.py:133-190 | A generation failure is the result and GitHub is untouched; success means a repository holding the page, README and LICENSE; `processed_tasks` is written only then; other repositories are kept; it succeeds iff generation succeeds, the task id is non-empty and the GitHub calls for a new repository succeed, so the callback never changes the result; on success the payload (email, task, round, nonce, repository URL, commit sha, Pages URL) is posted at least once, and the reported verdict is whether some attempt got 200; no repository appears except the one named after the task; `last_provider_used` becomes the provider that served the generation, or stays as it was |
| App.Service.DeployAndNotify | app.py:147-172 | With a non-empty list of distinct files, succeeds iff the task id is non-empty and the GitHub calls for a new repository succeed; then the repository holds exactly the files, the task is recorded, and the payload built from the request and the new commit is posted, with the verdict whether some attempt got 200; on failure `processed_tasks` is unchanged and nothing is posted; no repository appears except the one named after the task |
| App.Service.ProcessRound2 | app.py:192-270 | A missing repository or unreadable page fails before any LLM call; success means the page and README are upserted over the old files and deployed; other repositories are kept; it succeeds iff the page is found, generation succeeds and every upsert and the commit listing succeed, so the callback never changes the result; on success the same payload is posted and the verdict is whether some attempt got 200; once the LLM was asked, `last_provider_used` becomes the provider that served the update, or stays as it was |
| App.Service.UpdateExistingApp | app.py:217-264 | Succeeds iff the update is generated and both files upsert and the commits can be read; then the repository holds the old files overlaid with the page and the updated README; other repositories are kept; on success the payload built from the request and the new commit is posted; `last_provider_used` becomes the provider that served the update, or stays as it was |
| App.Service.FindExistingPage | app.py:196-215 | The gates of Round 2: it succeeds iff the derived repository exists and its `index.html` is readable and non-empty, and then returns that page |
| App.Service.ApiEndpoint | app.py:33-127 | A screened-out request gets the screen's reply and changes nothing; otherwise Round 1 runs iff `round` is absent, 1 or true, and Round 2 otherwise; the reply maps the result of the round that ran, which succeeds exactly under that round's success condition; only Round 1 writes `processed_tasks`, and only on success; after Round 1 every earlier repository is unchanged, none appears but the task's, and on success that repository holds exactly the generated page, README and license; after Round 2 every other repository is unchanged, and on success the task's repository holds its old files overlaid with the updated page and README |

## Left out

**Not modelled at all:**

- Network and library calls: the Gemini client, `requests.post`, PyGithub and the Pages REST call. Each becomes an outcome given as input.
- `time.sleep` timing: only the delay schedule is modelled, as the list of sleeps taken.
- Environment loading through `dotenv` and `os.getenv`: the variables are an input, `Config.Environment`. `PORT` and the unused `EVALUATION_TIMEOUT` are not modelled.
- The Flask and CORS setup, the health-check route `/` and `app.run`. Logging output is left out too.
- Concurrent requests sharing `processed_tasks`: requests are handled one at a time.
- The exact prompt, README and MIT-license texts: they are opaque functions of what they are built from, in `LlmGenerator.Templates`.
- The sampling floats `temperature` and `top_p`: only `top_k` and `max_output_tokens` are kept, in `LlmGenerator.GenerationConfig`.
- JSON floats in the request: values are null, booleans, integers, strings, lists and objects. `request.get_json()` failures on a bad content type or malformed JSON are not modelled.

**Simplified:**

- `str.lower()` and `str.isalpha()` are modelled on ASCII letters only. For the keyword and `"true"` comparisons this is exact. A non-ASCII letter at the start of a task id is treated as a non-letter.
- Base64 decoding and the UTF-8 decode with `errors='ignore'` are given functions, in `LlmGenerator.Codec`.
- GitHub shas are natural numbers handed out by a counter.
- `repo.html_url` is taken to follow GitHub's `https://github.com/<login>/<name>` convention.
- An empty repository's commit listing answers 409.
- `GitHubManager.ErrorText`: `str(GithubException)` is reduced to its status code; the message body GitHub sends is not modelled.
- `App.ExistingPage` reads both `None` and an empty page as "" because Round 2 treats them alike (`if not existing_code`).

**Weaker or narrower contracts:**

- `App.Service.ApiEndpoint`: requires that a request which passes screening has a string `task` and `brief`, a list of strings for `checks`, and `attachments` that are `null` or a list of objects with string `name` and `url`. `email`, `nonce` and `evaluation_url` may be any value. The other shapes are not modelled. In the Python code they behave as follows:
  - A non-string `task` makes `.replace` raise when the repository name is derived. Round 1 then fails with that error after generating; Round 2 fails before it.
  - A number, boolean or dictionary as `brief` makes `brief[:100]` raise (llm_generator.py:133 and :424). A list is sliced and formatted by its Python repr.
  - A number as `checks` raises when the prompt is built. A string is iterated character by character, and a list of non-strings is formatted item by item.
  - An attachment that is not a dictionary raises at `att.get`. A `url` that is not a string raises at `startswith`. A non-string `name` is only formatted.
- `App.RequestOf`: has the same restriction as `App.Service.ApiEndpoint`.
- `AIpipeGenerator.Normalize`: a JSON `null` is not modelled. The two cases differ:
  - A `choices` that is `null` makes `len` raise inside `generate_content`. It is re-raised and reaches the generator as an AIpipe failure, which the `Err` outcome of the AIpipe call covers.
  - A `content` that is `null` makes `text` `None`. The model's text is always a string, so this case is not represented. In the Python code a later step raises on it.
- `GitHubManager.Faults`: a fault is a function of the call, meaning its kind, repository and path. So the same call always gives the same status. A transient error that clears on retry is not modelled. This covers `get_repo` in `repo_exists` and again in `update_repo`, and `get_contents` for the page and again for the upsert.
- `App.Service.ProcessRound1`: after the repository is created, the model does not state which failure message a GitHub error produces beyond it being the manager's error text.

**Where the description and the code differ:** the module's description says the generator falls back to the secondary provider after any failure. The code, followed here, does so only from AIpipe. From Gemini it falls back only when the error text contains one of `quota`, `timeout`, `429`, `504` or `exceeded`.
