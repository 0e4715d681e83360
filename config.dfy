/** `Config` (config.py): the settings read from the environment, the two
    boolean flags, the retry schedule, and `validate`, which lists the
    settings that are missing. */
module Config {
  import opened Wrappers
  import opened PyString

  /** The environment variables the service reads; `None` when unset. */
  datatype Environment = Environment(
    studentSecret: Option<string>,
    githubToken: Option<string>,
    githubUsername: Option<string>,
    geminiApiKey: Option<string>,
    aipipeToken: Option<string>,
    useAipipe: Option<string>,
    debug: Option<string>)

  /** The class attributes of `Config` once the module has been imported. */
  datatype Settings = Settings(
    studentSecret: Option<string>,
    githubToken: Option<string>,
    githubUsername: Option<string>,
    geminiApiKey: Option<string>,
    aipipeToken: Option<string>,
    useAipipe: bool,
    debug: bool,
    retryDelays: seq<int>)

  /** Seconds to wait before each retry of the evaluation callback. */
  const RetryDelays: seq<int> := [1, 2, 4, 8]

  /** The entry `validate` adds when neither LLM credential is set. */
  const LlmEntry := "GEMINI_API_KEY or AIPIPE_TOKEN"

  /** Python truthiness of an environment value: unset or empty is false. */
  predicate Falsy(v: Option<string>) {
    v == None || v == Some("")
  }

  /** `os.getenv(name, 'False').lower() == 'true'`: true exactly for the four
      letters t, r, u, e in any mix of cases, and false when unset. */
  function Flag(raw: Option<string>): (b: bool)
    ensures b <==> raw.Some? && |raw.value| == 4
                   && forall i :: 0 <= i < 4 ==> LowerChar(raw.value[i]) == "true"[i]
  {
    Lower(raw.GetOr("False")) == "true"
  }

  /** `getattr(Config, name, None)` for the names `validate` asks about; any
      other name, such as the combined LLM entry, has no attribute. */
  function Getattr(env: Environment, name: string): Option<string> {
    match name
    case "STUDENT_SECRET" => env.studentSecret
    case "GITHUB_TOKEN" => env.githubToken
    case "GITHUB_USERNAME" => env.githubUsername
    case "GEMINI_API_KEY" => env.geminiApiKey
    case "AIPIPE_TOKEN" => env.aipipeToken
    case _ => None
  }

  /** What `validate` should report, read off the settings directly: each
      required setting that is unset or empty, in the order of `required`,
      then the combined LLM entry when both credentials are missing. */
  function Missing(env: Environment): seq<string> {
    (if Falsy(env.studentSecret) then ["STUDENT_SECRET"] else [])
    + (if Falsy(env.githubToken) then ["GITHUB_TOKEN"] else [])
    + (if Falsy(env.githubUsername) then ["GITHUB_USERNAME"] else [])
    + (if Falsy(env.geminiApiKey) && Falsy(env.aipipeToken) then [LlmEntry] else [])
  }

  /** The names among `names` whose attribute is falsy, in order. */
  function Unset(env: Environment, names: seq<string>): seq<string> {
    if names == [] then []
    else
      var last := names[|names| - 1];
      Unset(env, names[..|names| - 1]) + (if Falsy(Getattr(env, last)) then [last] else [])
  }

  function ValidationMessage(missing: seq<string>): string {
    "Missing required environment variables: " + Join(missing, ", ")
    + "\nPlease create a .env file with these variables."
  }

  /** `Config.validate()`: `True` when nothing is missing, otherwise the
      `ValueError` naming what is missing. */
  method Validate(env: Environment) returns (r: Result<bool, string>)
    ensures r.Success? <==> Missing(env) == []
    ensures r.Success? ==> r.value
    ensures r.Failure? ==> r.error == ValidationMessage(Missing(env))
  {
    var required := ["STUDENT_SECRET", "GITHUB_TOKEN", "GITHUB_USERNAME"];
    if Falsy(env.geminiApiKey) && Falsy(env.aipipeToken) {
      required := required + [LlmEntry];
    }
    var missing := [];
    for i := 0 to |required|
      invariant missing == Unset(env, required[..i])
    {
      assert required[..i + 1][..i] == required[..i];
      if Falsy(Getattr(env, required[i])) {
        missing := missing + [required[i]];
      }
    }
    assert required[..|required|] == required;
    UnsetOfRequired(env, required);
    if missing != [] {
      return Failure(ValidationMessage(missing));
    }
    return Success(true);
  }

  /** The `getattr` loop over `required` computes `Missing`; in particular the
      combined LLM entry, having no attribute, is always reported once added. */
  lemma UnsetOfRequired(env: Environment, required: seq<string>)
    requires required == ["STUDENT_SECRET", "GITHUB_TOKEN", "GITHUB_USERNAME"]
                         + (if Falsy(env.geminiApiKey) && Falsy(env.aipipeToken) then [LlmEntry] else [])
    ensures Unset(env, required) == Missing(env)
  {
    var base := ["STUDENT_SECRET", "GITHUB_TOKEN", "GITHUB_USERNAME"];
    assert base[..2] == ["STUDENT_SECRET", "GITHUB_TOKEN"];
    assert base[..2][..1] == ["STUDENT_SECRET"];
    assert base[..2][..1][..0] == [];
    assert Unset(env, base) ==
      (if Falsy(env.studentSecret) then ["STUDENT_SECRET"] else [])
      + (if Falsy(env.githubToken) then ["GITHUB_TOKEN"] else [])
      + (if Falsy(env.githubUsername) then ["GITHUB_USERNAME"] else []) by {
      assert Getattr(env, "STUDENT_SECRET") == env.studentSecret;
      assert Getattr(env, "GITHUB_TOKEN") == env.githubToken;
      assert Getattr(env, "GITHUB_USERNAME") == env.githubUsername;
      assert Unset(env, []) == [];
      var one := Unset(env, base[..2][..1]);
      assert one == (if Falsy(env.studentSecret) then ["STUDENT_SECRET"] else []);
      var two := Unset(env, base[..2]);
      assert two == one + (if Falsy(env.githubToken) then ["GITHUB_TOKEN"] else []);
      assert Unset(env, base) == two + (if Falsy(env.githubUsername) then ["GITHUB_USERNAME"] else []);
    }
    if required != base {
      assert required[..3] == base;
      assert Getattr(env, LlmEntry) == None;
      assert Unset(env, required) == Unset(env, base) + [LlmEntry];
    }
  }

  /** `validate` fails exactly when a GitHub or student setting is missing or
      both LLM credentials are; the combined LLM entry is always last. */
  lemma MissingCases(env: Environment)
    ensures Missing(env) != [] <==>
      Falsy(env.studentSecret) || Falsy(env.githubToken) || Falsy(env.githubUsername)
      || (Falsy(env.geminiApiKey) && Falsy(env.aipipeToken))
    ensures LlmEntry in Missing(env) ==> Missing(env)[|Missing(env)| - 1] == LlmEntry
    ensures |Missing(env)| <= 4
  {
  }

  /** Importing config.py: the settings are read whatever `validate` says; a
      validation failure is only reported (printed), never raised. */
  method Load(env: Environment) returns (settings: Settings, report: Option<string>)
    ensures settings.studentSecret == env.studentSecret
    ensures settings.githubToken == env.githubToken && settings.githubUsername == env.githubUsername
    ensures settings.geminiApiKey == env.geminiApiKey && settings.aipipeToken == env.aipipeToken
    ensures settings.useAipipe == Flag(env.useAipipe) && settings.debug == Flag(env.debug)
    ensures settings.retryDelays == RetryDelays
    ensures report.Some? <==> Missing(env) != []
    ensures report.Some? ==> report.value == ValidationMessage(Missing(env))
  {
    settings := Settings(env.studentSecret, env.githubToken, env.githubUsername,
                         env.geminiApiKey, env.aipipeToken,
                         Flag(env.useAipipe), Flag(env.debug), RetryDelays);
    var v := Validate(env);
    report := if v.Failure? then Some(v.error) else None;
  }
}
