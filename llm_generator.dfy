/** `LLMGenerator` (llm_generator.py): choice of the primary provider,
    generation with failover between Gemini and AIpipe, attachment decoding,
    extraction of the reply text, and parsing of the reply into the files
    of the generated app.  Every call to a provider is an input of the
    model: the outcome that call has (`CallOutcome`). */
module LlmGenerator {
  import opened Wrappers
  import opened PyString
  import opened FileSets
  import Config
  import AIpipeGenerator
  import opened GeminiResponse

  newtype byte = x: int | 0 <= x < 256

  datatype Provider = Gemini | AIpipe

  /** The integer part of the `generation_config` dict; its two floats
      (temperature, top_p) are not modelled. */
  datatype GenerationConfig = GenerationConfig(topK: nat, maxOutputTokens: nat)

  /** The configuration `generate_app` and `update_app` pass. */
  const DefaultConfig := GenerationConfig(40, 8192)

  /** One request made to a provider: the prompt, and the sampling
      configuration passed along with it (`None`: called without one). */
  datatype Call = Call(provider: Provider, prompt: string, config: Option<GenerationConfig>)

  /** What one provider call does: return a reply, or raise with `str(e)`. */
  datatype CallOutcome = Ok(response: Response) | Err(message: string)

  /** The outcome of an AIpipe call seen by the generator: the HTTP reply
      reshaped by `AIpipeResponse`, or the exception it raised. */
  function AIpipeOutcome(reply: Result<AIpipeGenerator.OpenRouterReply, string>, repr: string): (o: CallOutcome)
    ensures o.Ok? <==> reply.Success?
    ensures o.Ok? ==> o.response.text == Some(AIpipeGenerator.Normalize(reply.value).text)
  {
    match reply
    case Success(r) => Ok(AIpipeGenerator.AsResponse(AIpipeGenerator.Normalize(r), repr))
    case Failure(e) => Err(e)
  }

  // ---------------------------------------------------------------------
  // Primary selection (`__init__`)

  const NoProviderMessage := "No LLM provider configured! Need either GEMINI_API_KEY or AIPIPE_TOKEN"

  /** The primary provider `__init__` picks, or `None` when it raises. */
  function SelectPrimary(useAipipe: bool, hasGemini: bool, hasAipipe: bool): (p: Option<Provider>)
    ensures p == None <==> !hasGemini && !hasAipipe
    ensures p == Some(Gemini) ==> hasGemini
    ensures p == Some(AIpipe) ==> hasAipipe
    ensures useAipipe && hasAipipe ==> p == Some(AIpipe)
    ensures !(useAipipe && hasAipipe) && hasGemini ==> p == Some(Gemini)
  {
    if useAipipe && hasAipipe then Some(AIpipe)
    else if hasGemini then Some(Gemini)
    else if hasAipipe then Some(AIpipe)
    else None
  }

  /** Construction fails exactly when configuration validation reports the
      combined LLM entry: both checks read the same two credentials. */
  lemma SelectionAgreesWithValidation(env: Config.Environment)
    ensures SelectPrimary(Config.Flag(env.useAipipe), !Config.Falsy(env.geminiApiKey), !Config.Falsy(env.aipipeToken)) == None
            <==> Config.LlmEntry in Config.Missing(env)
  {
    var m := Config.Missing(env);
    if Config.LlmEntry in m {
      assert Config.LlmEntry != "STUDENT_SECRET" && Config.LlmEntry != "GITHUB_TOKEN" && Config.LlmEntry != "GITHUB_USERNAME";
    }
  }

  // ---------------------------------------------------------------------
  // Failover (`_generate_with_fallback`)

  /** Lower-cased error texts containing one of these make Gemini fall back. */
  const TransientKeywords := ["quota", "timeout", "429", "504", "exceeded"]

  predicate IsTransient(message: string) {
    ContainsAny(Lower(message), TransientKeywords)
  }

  /** Some key occurs in `s`: `any(k in s for k in keys)`. */
  predicate ContainsAny(s: string, keys: seq<string>) {
    keys != [] && (Contains(s, keys[0]) || ContainsAny(s, keys[1..]))
  }

  function ProviderName(p: Provider): string {
    if p == Gemini then "Gemini" else "AIpipe"
  }

  /** The error the failover records for one failed call. */
  function FailureNote(p: Provider, fallback: bool, message: string): string {
    ProviderName(p) + (if fallback then " fallback failed: " else " failed: ") + message
  }

  function BothFailed(errors: seq<string>): string {
    "Both providers failed: " + Join(errors, "; ")
  }

  const NoProviderAvailable := "No LLM provider available"

  /** What one run of `_generate_with_fallback` does: its result, the calls
      it made in order, and the name it records as the serving provider
      (`None`: it records nothing). */
  datatype Attempt = Attempt(result: Result<Response, string>, calls: seq<Call>, servedBy: Option<string>)

  /** The failover policy as the code implements it.  From Gemini it falls
      back only on a transient error text; from AIpipe on any error. */
  function Failover(primary: Provider, hasGemini: bool, hasAipipe: bool, prompt: string,
                    config: Option<GenerationConfig>, gemini: CallOutcome, aipipe: CallOutcome): Attempt
  {
    var geminiCall := Call(Gemini, prompt, config);
    var aipipeCall := Call(AIpipe, prompt, None);
    if primary == Gemini && hasGemini then
      match gemini
      case Ok(response) => Attempt(Success(response), [geminiCall], Some("Gemini"))
      case Err(m) =>
        var first := FailureNote(Gemini, false, m);
        if IsTransient(m) && hasAipipe then
          match aipipe
          case Ok(response) => Attempt(Success(response), [geminiCall, aipipeCall], Some("AIpipe (fallback)"))
          case Err(m2) =>
            Attempt(Failure(BothFailed([first, FailureNote(AIpipe, true, m2)])), [geminiCall, aipipeCall], None)
        else Attempt(Failure(BothFailed([first])), [geminiCall], None)
    else if primary == AIpipe && hasAipipe then
      match aipipe
      case Ok(response) => Attempt(Success(response), [aipipeCall], Some("AIpipe"))
      case Err(m) =>
        var first := FailureNote(AIpipe, false, m);
        if hasGemini then
          match gemini
          case Ok(response) => Attempt(Success(response), [aipipeCall, geminiCall], Some("Gemini (fallback)"))
          case Err(m2) =>
            Attempt(Failure(BothFailed([first, FailureNote(Gemini, true, m2)])), [aipipeCall, geminiCall], None)
        else Attempt(Failure(BothFailed([first])), [aipipeCall], None)
    else Attempt(Failure(NoProviderAvailable), [], None)
  }

  /** The outcome a given provider's call has in this run. */
  function OutcomeOf(p: Provider, gemini: CallOutcome, aipipe: CallOutcome): CallOutcome {
    if p == Gemini then gemini else aipipe
  }

  /** After a Gemini failure, AIpipe is tried exactly when the error text is
      transient and AIpipe is configured; otherwise the run fails at once
      with the Gemini error alone. */
  lemma GeminiFallsBackOnlyOnTransientErrors(hasAipipe: bool, prompt: string,
      config: Option<GenerationConfig>, m: string, aipipe: CallOutcome)
    ensures var a := Failover(Gemini, true, hasAipipe, prompt, config, Err(m), aipipe);
      && (|a.calls| == 2 <==> IsTransient(m) && hasAipipe)
      && (!(IsTransient(m) && hasAipipe) ==>
            a.calls == [Call(Gemini, prompt, config)]
            && a.result == Failure("Both providers failed: " + "Gemini failed: " + m))
  {
    var first := FailureNote(Gemini, false, m);
    assert "Gemini" + " failed: " == "Gemini failed: ";
    assert Join([first], "; ") == first;
    assert "Both providers failed: " + first == "Both providers failed: " + "Gemini failed: " + m;
  }

  /** After an AIpipe failure, Gemini is tried whatever the error text, with
      the caller's sampling configuration. */
  lemma AIpipeAlwaysFallsBack(prompt: string, config: Option<GenerationConfig>, m: string,
      gemini: CallOutcome)
    ensures var a := Failover(AIpipe, true, true, prompt, config, gemini, Err(m));
      a.calls == [Call(AIpipe, prompt, None), Call(Gemini, prompt, config)]
  {
  }

  /** Every run starts with the primary, tries each provider at most once,
      never hands AIpipe the sampling configuration and always hands it to
      Gemini. */
  lemma CallsRespectProviders(primary: Provider, hasGemini: bool, hasAipipe: bool, prompt: string,
      config: Option<GenerationConfig>, gemini: CallOutcome, aipipe: CallOutcome)
    requires primary == Gemini ==> hasGemini
    requires primary == AIpipe ==> hasAipipe
    ensures var a := Failover(primary, hasGemini, hasAipipe, prompt, config, gemini, aipipe);
      && 1 <= |a.calls| <= 2
      && a.calls[0].provider == primary
      && (|a.calls| == 2 ==> a.calls[1].provider != primary)
      && forall c :: c in a.calls ==>
           c.prompt == prompt
           && (c.provider == AIpipe ==> c.config == None)
           && (c.provider == Gemini ==> c.config == config && hasGemini)
           && (c.provider == AIpipe ==> hasAipipe)
  {
  }

  /** The run succeeds exactly when its last call succeeds, with that
      call's reply, and only then records a serving provider; it fails only
      after every call it made failed. */
  lemma SuccessComesFromLastCall(primary: Provider, hasGemini: bool, hasAipipe: bool, prompt: string,
      config: Option<GenerationConfig>, gemini: CallOutcome, aipipe: CallOutcome)
    requires primary == Gemini ==> hasGemini
    requires primary == AIpipe ==> hasAipipe
    ensures var a := Failover(primary, hasGemini, hasAipipe, prompt, config, gemini, aipipe);
      var last := OutcomeOf(a.calls[|a.calls| - 1].provider, gemini, aipipe);
      && |a.calls| >= 1
      && (a.result.Success? <==> last.Ok?)
      && (a.result.Success? ==> a.result.value == last.response)
      && (a.result.Success? <==> a.servedBy.Some?)
      && (a.result.Failure? ==> forall c :: c in a.calls ==> OutcomeOf(c.provider, gemini, aipipe).Err?)
  {
  }

  /** A failed run reports the failures in the order the calls were made:
      the primary's, then the fallback's. */
  lemma FailureListsAttemptsInOrder(primary: Provider, hasGemini: bool, hasAipipe: bool, prompt: string,
      config: Option<GenerationConfig>, gemini: CallOutcome, aipipe: CallOutcome)
    requires primary == Gemini ==> hasGemini
    requires primary == AIpipe ==> hasAipipe
    ensures var a := Failover(primary, hasGemini, hasAipipe, prompt, config, gemini, aipipe);
      var first := OutcomeOf(primary, gemini, aipipe);
      var second := OutcomeOf(if primary == Gemini then AIpipe else Gemini, gemini, aipipe);
      && (a.result.Failure? && |a.calls| == 1 ==>
            a.result.error == "Both providers failed: " + FailureNote(primary, false, first.message))
      && (a.result.Failure? && |a.calls| == 2 ==>
            a.result.error == "Both providers failed: "
                              + (FailureNote(primary, false, first.message) + "; "
                                 + FailureNote(a.calls[1].provider, true, second.message)))
  {
    if primary == Gemini {
      if gemini.Err? {
        FailureJoin(FailureNote(Gemini, false, gemini.message), aipipe, AIpipe);
      }
    } else if aipipe.Err? {
      FailureJoin(FailureNote(AIpipe, false, aipipe.message), gemini, Gemini);
    }
  }

  lemma FailureJoin(first: string, fallback: CallOutcome, p: Provider)
    ensures Join([first], "; ") == first
    ensures fallback.Err? ==>
      Join([first, FailureNote(p, true, fallback.message)], "; ") == first + "; " + FailureNote(p, true, fallback.message)
  {
    if fallback.Err? {
      var second := FailureNote(p, true, fallback.message);
      assert [first, second][1..] == [second];
    }
  }

  /** Error texts are matched case-insensitively: a text and its lower-case
      form are classified alike, and so are any two texts that differ only
      in the case of their letters. */
  lemma {:induction false} TransientIgnoresCase(m: string, n: string)
    ensures IsTransient(m) <==> IsTransient(Lower(m))
    ensures Lower(m) == Lower(n) ==> (IsTransient(m) <==> IsTransient(n))
  {
    LowerIdempotent(m);
  }

  /** A text whose lower-case form starts with a keyword is transient. */
  lemma TransientByPrefix(m: string, k: nat)
    requires k < |TransientKeywords| && StartsWith(Lower(m), TransientKeywords[k])
    ensures IsTransient(m)
  {
    assert OccursAt(Lower(m), TransientKeywords[k], 0);
    AnyKeyword(Lower(m), TransientKeywords, k);
  }

  lemma {:induction false} AnyKeyword(s: string, keys: seq<string>, k: nat)
    requires k < |keys| && Contains(s, keys[k])
    ensures ContainsAny(s, keys)
  {
    if k > 0 {
      AnyKeyword(s, keys[1..], k - 1);
    }
  }

  lemma {:induction false} LowerIdempotent(s: string)
    ensures Lower(Lower(s)) == Lower(s)
  {
    if s != [] {
      LowerIdempotent(s[1..]);
    }
  }

  // ---------------------------------------------------------------------
  // Attachments (`_process_attachments`)

  /** One entry of the request's `attachments` list; `None` for an absent key. */
  datatype AttachmentIn = AttachmentIn(name: Option<string>, url: Option<string>)

  /** One entry of `attachment_info`. */
  datatype AttachmentInfo =
    | Decoded(name: string, mimeType: string, size: nat, dataUrl: string, preview: Option<string>)
    | Undecodable(name: string, dataUrl: string, error: string)

  /** The two library decoders, treated as given functions: `b64decode`
      (which may raise) and `bytes.decode('utf-8', errors='ignore')`. */
  datatype Codec = Codec(b64decode: string -> Result<seq<byte>, string>, utf8Ignore: seq<byte> -> string)

  /** `str(e)` for the `ValueError` of `header, encoded = url.split(',', 1)`
      when the url has no comma. */
  const UnpackError := "not enough values to unpack (expected 2, got 1)"

  function NameOf(att: AttachmentIn): string { att.name.GetOr("attachment") }

  function UrlOf(att: AttachmentIn): string { att.url.GetOr("") }

  predicate IsDataUrl(att: AttachmentIn) { StartsWith(UrlOf(att), "data:") }

  /** `header.split(':')[1].split(';')[0]`. */
  function MimeType(header: string): string
    requires ':' in header
  {
    Before(Before(After(header, ':'), ':'), ';')
  }

  /** The MIME type of a data URL whose header is everything before its
      first comma. */
  function MimeOfUrl(url: string): string
    requires StartsWith(url, "data:")
  {
    var header := Before(url, ',');
    assert header[4] == ':' by {
      assert url[..5] == "data:";
      assert forall i :: 0 <= i < 5 ==> url[i] != ',';
      FirstCommaAfterScheme(url);
    }
    MimeType(header)
  }

  lemma FirstCommaAfterScheme(url: string)
    requires StartsWith(url, "data:")
    ensures |Before(url, ',')| >= 5
    ensures Before(url, ',')[..5] == "data:"
  {
    var b := Before(url, ',');
    assert forall i :: 0 <= i < 5 ==> url[i] == url[..5][i] != ',';
  }

  /** The entry `_process_attachments` appends for one data-URL attachment. */
  function Describe(att: AttachmentIn, codec: Codec): (info: AttachmentInfo)
    requires IsDataUrl(att)
    ensures info.name == NameOf(att) && info.dataUrl == UrlOf(att)
    ensures info.Undecodable? <==>
      ',' !in UrlOf(att) || codec.b64decode(After(UrlOf(att), ',')).Failure?
    ensures ',' !in UrlOf(att) ==> info == Undecodable(NameOf(att), UrlOf(att), UnpackError)
    ensures info.Decoded? ==>
      && info.mimeType == MimeOfUrl(UrlOf(att))
      && info.size == |codec.b64decode(After(UrlOf(att), ',')).value|
      && (info.preview.Some? <==> StartsWith(info.mimeType, "text"))
  {
    var url := UrlOf(att);
    if ',' !in url then Undecodable(NameOf(att), url, UnpackError)
    else
      var encoded := After(url, ',');
      var mime := MimeOfUrl(url);
      match codec.b64decode(encoded)
      case Failure(e) => Undecodable(NameOf(att), url, e)
      case Success(bytes) =>
        var head := if |bytes| <= 100 then bytes else bytes[..100];
        Decoded(NameOf(att), mime, |bytes|, url,
                if StartsWith(mime, "text") then Some(codec.utf8Ignore(head)) else None)
  }

  /** The MIME type is what follows `data:` up to the first `;` (or the
      comma that ends the header, when there are no parameters). */
  lemma MimeOfDataUrl(url: string, mime: string, sep: char, rest: string)
    requires sep == ';' || sep == ','
    requires url == "data:" + mime + [sep] + rest
    requires ':' !in mime && ';' !in mime && ',' !in mime
    ensures MimeOfUrl(url) == mime
  {
    if sep == ',' {
      MimeWithoutParameters(url, mime, rest);
    } else {
      MimeWithParameters(url, mime, rest);
    }
  }

  lemma MimeWithoutParameters(url: string, mime: string, rest: string)
    requires url == "data:" + mime + [','] + rest
    requires ':' !in mime && ';' !in mime && ',' !in mime
    ensures MimeOfUrl(url) == mime
  {
    var scheme := "data";
    var header := scheme + [':'] + mime;
    assert url == header + [','] + rest;
    BeforeAt(header, rest, ',');
    AfterAt(scheme, mime, ':');
    assert MimeOfUrl(url) == Before(Before(mime, ':'), ';');
    BeforeAppend(mime, [], ':');
    BeforeAppend(mime, [], ';');
    assert mime + [] == mime;
  }

  lemma MimeWithParameters(url: string, mime: string, rest: string)
    requires url == "data:" + mime + [';'] + rest
    requires ':' !in mime && ';' !in mime && ',' !in mime
    ensures MimeOfUrl(url) == mime
  {
    var params := mime + ([';'] + Before(rest, ','));
    HeaderWithParameters(url, mime, rest);
    assert MimeOfUrl(url) == MimeType("data" + [':'] + params);
    MimeTypeWithParameters(mime, Before(rest, ','));
  }

  /** The header of such a URL runs up to the first comma of the parameters. */
  lemma HeaderWithParameters(url: string, mime: string, rest: string)
    requires url == "data:" + mime + [';'] + rest
    requires ',' !in mime
    ensures Before(url, ',') == "data" + [':'] + (mime + ([';'] + Before(rest, ',')))
  {
    var prefix := "data" + [':'] + mime + [';'];
    assert url == prefix + rest;
    BeforeAppend(prefix, rest, ',');
  }

  /** `header.split(':')[1].split(';')[0]` of `data:<mime>;<params>`. */
  lemma MimeTypeWithParameters(mime: string, tail: string)
    requires ':' !in mime && ';' !in mime
    ensures MimeType("data" + [':'] + (mime + ([';'] + tail))) == mime
  {
    var params := mime + ([';'] + tail);
    AfterAt("data", params, ':');
    BeforeAppend(mime, [';'] + tail, ':');
    BeforeAppend([';'], tail, ':');
    assert Before(params, ':') == mime + [';'] + Before(tail, ':');
    BeforeAt(mime, Before(tail, ':'), ';');
  }

  /** A prefix free of `c` is kept whole by `Before`. */
  lemma BeforeAppend(p: string, s: string, c: char)
    requires c !in p
    ensures Before(p + s, c) == p + Before(s, c)
  {
    var b := Before(s, c);
    var k := |p| + |b|;
    forall i | 0 <= i < k ensures (p + s)[i] != c {
      if i >= |p| {
        assert (p + s)[i] == s[i - |p|] == b[i - |p|];
      }
    }
    BeforeIsUpToFirst(p + s, c, k);
    assert (p + s)[..k] == p + s[..|b|];
  }

  /** `Before` stops at a `c` that follows a prefix free of `c`. */
  lemma BeforeAt(p: string, s: string, c: char)
    requires c !in p
    ensures Before(p + [c] + s, c) == p
  {
    BeforeIsUpToFirst(p + [c] + s, c, |p|);
    assert (p + [c] + s)[..|p|] == p;
  }

  /** `After` takes what follows a `c` that follows a prefix free of `c`. */
  lemma AfterAt(p: string, s: string, c: char)
    requires c !in p
    ensures c in p + [c] + s
    ensures After(p + [c] + s, c) == s
  {
    assert (p + [c] + s)[|p|] == c;
    BeforeAt(p, s, c);
    var t := p + [c] + s;
    assert t == p + [c] + After(t, c);
    assert t[|p| + 1..] == s;
    assert t[|p| + 1..] == After(t, c);
  }

  /** `Before(s, c)` stops at the first `c`, or takes the whole string. */
  lemma BeforeIsUpToFirst(s: string, c: char, k: nat)
    requires k <= |s|
    requires k < |s| ==> s[k] == c
    requires forall i :: 0 <= i < k ==> s[i] != c
    ensures Before(s, c) == s[..k]
  {
    var b := Before(s, c);
    assert forall i :: 0 <= i < |b| ==> s[i] != c;
  }

  /** `attachments` when given, `[]` for `None`. */
  function Items(attachments: Option<seq<AttachmentIn>>): seq<AttachmentIn> {
    attachments.GetOr([])
  }

  /** The entries for the data-URL attachments, in input order. */
  function DescribeAll(atts: seq<AttachmentIn>, codec: Codec): (info: seq<AttachmentInfo>)
    ensures |info| <= |atts|
    ensures forall k :: 0 <= k < |info| ==> StartsWith(info[k].dataUrl, "data:")
  {
    if atts == [] then []
    else
      var last := atts[|atts| - 1];
      DescribeAll(atts[..|atts| - 1], codec) + (if IsDataUrl(last) then [Describe(last, codec)] else [])
  }

  /** The number of data-URL attachments. */
  function CountDataUrls(atts: seq<AttachmentIn>): nat {
    if atts == [] then 0
    else CountDataUrls(atts[..|atts| - 1]) + (if IsDataUrl(atts[|atts| - 1]) then 1 else 0)
  }

  /** Every data-URL attachment yields exactly one entry, whatever the
      decoder does: a decoding failure becomes an error entry instead of
      aborting or dropping the attachment. */
  lemma {:induction false} OneEntryPerDataUrl(atts: seq<AttachmentIn>, codec: Codec)
    ensures |DescribeAll(atts, codec)| == CountDataUrls(atts)
  {
    if atts != [] {
      OneEntryPerDataUrl(atts[..|atts| - 1], codec);
    }
  }

  lemma DescribeAllStep(atts: seq<AttachmentIn>, i: nat, codec: Codec)
    requires i < |atts|
    ensures DescribeAll(atts[..i + 1], codec) ==
      DescribeAll(atts[..i], codec) + (if IsDataUrl(atts[i]) then [Describe(atts[i], codec)] else [])
  {
    assert atts[..i + 1][..i] == atts[..i];
  }

  /** `_process_attachments(attachments)`. */
  method ProcessAttachments(attachments: Option<seq<AttachmentIn>>, codec: Codec)
    returns (info: seq<AttachmentInfo>)
    ensures info == DescribeAll(Items(attachments), codec)
  {
    if attachments == None || attachments.value == [] {
      return [];
    }
    var atts := attachments.value;
    info := [];
    for i := 0 to |atts|
      invariant info == DescribeAll(atts[..i], codec)
    {
      DescribeAllStep(atts, i, codec);
      var att := atts[i];
      // only data URLs yield an entry
      info := info + (if IsDataUrl(att) then [Describe(att, codec)] else []);
    }
    assert atts[..|atts|] == atts;
  }

  // ---------------------------------------------------------------------
  // Reply text (`_extract_response_text`)

  /** `''.join(p.text for p in parts if hasattr(p, 'text'))`. */
  function PartsText(parts: seq<Part>): string {
    if parts == [] then ""
    else PartsText(parts[..|parts| - 1]) + parts[|parts| - 1].text.GetOr("")
  }

  /** The text `_extract_response_text` returns: `response.text` when it can
      be read; otherwise the texts of the reply's parts, or of the first
      candidate's parts, or else `str(response)`. */
  function ResponseText(r: Response): string {
    if r.text.Some? then r.text.value
    else if r.parts.Some? then PartsText(r.parts.value)
    else if r.candidates.Some? && |r.candidates.value| > 0 && r.candidates.value[0].parts.Some? then
      PartsText(r.candidates.value[0].parts.value)
    else r.repr
  }

  /** The parts AIpipe builds carry its text once, or nothing for an empty
      reply: however the text is read, the generator sees AIpipe's text. */
  lemma AIpipeTextSurvives(reply: AIpipeGenerator.OpenRouterReply, repr: string)
    ensures var n := AIpipeGenerator.Normalize(reply);
      && ResponseText(AIpipeGenerator.AsResponse(n, repr)) == n.text
      && PartsText(n.parts) == n.text
      && PartsText(n.candidates[0].parts.value) == n.text
  {
    var n := AIpipeGenerator.Normalize(reply);
    assert PartsText([Part(Some(n.text))]) == PartsText([]) + n.text;
  }

  method JoinPartTexts(parts: seq<Part>) returns (text: string)
    ensures text == PartsText(parts)
  {
    text := "";
    for i := 0 to |parts|
      invariant text == PartsText(parts[..i])
    {
      assert parts[..i + 1][..i] == parts[..i];
      if parts[i].text.Some? {
        text := text + parts[i].text.value;
      }
    }
    assert parts[..|parts|] == parts;
  }

  /** `_extract_response_text(response)`. */
  method ExtractResponseText(r: Response) returns (text: string)
    ensures text == ResponseText(r)
  {
    if r.text.Some? {
      return r.text.value;
    }
    if r.parts.Some? {
      text := JoinPartTexts(r.parts.value);
      return;
    }
    if r.candidates.Some? && |r.candidates.value| > 0 {
      var candidate := r.candidates.value[0];
      if candidate.parts.Some? {
        text := JoinPartTexts(candidate.parts.value);
        return;
      }
    }
    return r.repr;
  }

  // ---------------------------------------------------------------------
  // Parsing the reply (`_parse_response`)

  const HtmlFence := "```html"
  const Fence := "```"

  /** The entry-point page `_parse_response` extracts from the reply text. */
  function ExtractIndexHtml(text: string): string {
    if Contains(text, HtmlFence) then HtmlBlockText(text)
    else if Contains(text, Fence) then FencedBlockText(text)
    else Strip(text)
  }

  /** The branch for a block tagged `html`. */
  function HtmlBlockText(text: string): string {
    var start := Find(text, HtmlFence, 0) + 7;
    var end := Find(text, Fence, start);
    Strip(Slice(text, start, end))
  }

  /** The branch for an untagged (or otherwise tagged) block. */
  function FencedBlockText(text: string): string {
    var start := Find(text, Fence, 0) + 3;
    var newline := Find(text, "\n", start);
    var end := Find(text, Fence, newline);
    Strip(Slice(text, newline, end))
  }

  /** `_parse_response(text)`: a single file, `index.html`. */
  function ParseResponse(text: string): (files: FileSet)
    ensures Paths(files) == ["index.html"]
    ensures files[0].1 == ExtractIndexHtml(text)
  {
    [("index.html", ExtractIndexHtml(text))]
  }

  /** `sub` first occurs at `i` among the positions from `from` on. */
  ghost predicate FirstAt(s: string, sub: string, from: nat, i: nat) {
    from <= i && OccursAt(s, sub, i) && forall j :: from <= j < i ==> !OccursAt(s, sub, j)
  }

  /** `sub` does not occur at or after `from`. */
  ghost predicate NoneFrom(s: string, sub: string, from: nat) {
    forall j :: from <= j ==> !OccursAt(s, sub, j)
  }

  lemma FindFirst(s: string, sub: string, from: nat, i: nat)
    requires FirstAt(s, sub, from, i)
    ensures Find(s, sub, from) == i
  {
    var r := Find(s, sub, from);
    assert r != -1;
    assert from <= r < i ==> !OccursAt(s, sub, r);
    assert i < r ==> !OccursAt(s, sub, i);
  }

  lemma FenceInHtmlFence(s: string, i: int)
    requires OccursAt(s, HtmlFence, i)
    ensures OccursAt(s, Fence, i)
  {
    assert s[i..i + 3] == s[i..i + 7][..3];
  }

  /** A block tagged `html`: its interior, stripped. */
  lemma HtmlBlock(text: string, i: nat, j: nat)
    requires FirstAt(text, HtmlFence, 0, i) && FirstAt(text, Fence, i + 7, j)
    ensures ExtractIndexHtml(text) == Strip(text[i + 7..j])
  {
    FindFirst(text, HtmlFence, 0, i);
    FindFirst(text, Fence, i + 7, j);
  }

  /** A block tagged `html` with no closing fence: `find` returns -1, and the
      slice `[start:-1]` drops the reply's final character. */
  lemma HtmlBlockUnclosed(text: string, i: nat)
    requires FirstAt(text, HtmlFence, 0, i) && NoneFrom(text, Fence, i + 7)
    ensures i + 7 < |text| ==> ExtractIndexHtml(text) == Strip(text[i + 7..|text| - 1])
    ensures i + 7 == |text| ==> ExtractIndexHtml(text) == ""
  {
    FindFirst(text, HtmlFence, 0, i);
    assert Find(text, Fence, i + 7) == -1;
    assert ExtractIndexHtml(text) == Strip(Slice(text, i + 7, -1));
  }

  /** A generic block: the text after the first line break that follows the
      opening fence, up to the next fence, stripped. */
  lemma GenericBlock(text: string, i: nat, n: nat, j: nat)
    requires NoneFrom(text, HtmlFence, 0)
    requires FirstAt(text, Fence, 0, i) && FirstAt(text, "\n", i + 3, n) && FirstAt(text, Fence, n, j)
    ensures n < j && ExtractIndexHtml(text) == Strip(text[n + 1..j])
  {
    assert !Contains(text, HtmlFence);
    OccursAtStartsWith(text, "\n", n);
    OccursAtStartsWith(text, Fence, j);
    FencedBlockAt(text, i, n, j);
    StripFromSpace(text, n, j);
  }

  lemma OccursAtStartsWith(s: string, sub: string, i: nat)
    requires sub != [] && OccursAt(s, sub, i)
    ensures s[i] == sub[0]
  {
    assert s[i] == s[i..i + |sub|][0];
  }

  /** With the three positions known, the generic branch slices from the
      line break to the closing fence. */
  lemma FencedBlockAt(text: string, i: nat, n: nat, j: nat)
    requires FirstAt(text, Fence, 0, i) && FirstAt(text, "\n", i + 3, n) && FirstAt(text, Fence, n, j)
    requires n != j
    ensures n < j && FencedBlockText(text) == Strip(text[n..j])
  {
    FindFirst(text, Fence, 0, i);
    FindFirst(text, "\n", i + 3, n);
    FindFirst(text, Fence, n, j);
    SliceWithin(text, n, j);
  }

  lemma SliceWithin(s: string, i: nat, j: nat)
    requires i < j <= |s|
    ensures Slice(s, i, j) == s[i..j]
  {
  }

  /** A slice that starts at a whitespace character strips to the same
      text as the slice one character later. */
  lemma StripFromSpace(text: string, n: nat, j: nat)
    requires n < j <= |text| && IsSpace(text[n])
    ensures Strip(text[n..j]) == Strip(text[n + 1..j])
  {
    assert text[n..j] == [text[n]] + text[n + 1..j];
    StripSkipsLeadingSpace(text[n], text[n + 1..j]);
  }

  /** A generic block with no closing fence: the slice ends one character
      short of the end of the reply. */
  lemma GenericBlockUnclosed(text: string, i: nat, n: nat)
    requires NoneFrom(text, HtmlFence, 0)
    requires FirstAt(text, Fence, 0, i) && FirstAt(text, "\n", i + 3, n) && NoneFrom(text, Fence, n)
    ensures ExtractIndexHtml(text) == if n + 1 < |text| then Strip(text[n + 1..|text| - 1]) else ""
  {
    UnclosedFencedSlice(text, i, n);
    assert text[n] == '\n' by {
      assert text[n..n + 1] == "\n";
      assert text[n] == text[n..n + 1][0];
    }
    StripToLast(text, n);
  }

  lemma UnclosedFencedSlice(text: string, i: nat, n: nat)
    requires NoneFrom(text, HtmlFence, 0)
    requires FirstAt(text, Fence, 0, i) && FirstAt(text, "\n", i + 3, n) && NoneFrom(text, Fence, n)
    ensures ExtractIndexHtml(text) == Strip(Slice(text, n, -1))
  {
    assert !Contains(text, HtmlFence);
    FindFirst(text, Fence, 0, i);
    FindFirst(text, "\n", i + 3, n);
    assert Find(text, Fence, n) == -1;
  }

  /** `s[n:-1].strip()` when `s[n]` is whitespace. */
  lemma StripToLast(text: string, n: nat)
    requires n < |text| && IsSpace(text[n])
    ensures Strip(Slice(text, n, -1)) == if n + 1 < |text| then Strip(text[n + 1..|text| - 1]) else ""
  {
    if n + 1 < |text| {
      StripFromSpace(text, n, |text| - 1);
    } else {
      assert |Strip([])| == 0;
    }
  }

  /** A fence with no line break after it: `find` gives -1 for the line
      break, the closing search starts at the last character and fails, and
      the page is empty. */
  lemma GenericBlockWithoutNewline(text: string, i: nat)
    requires NoneFrom(text, HtmlFence, 0)
    requires FirstAt(text, Fence, 0, i) && NoneFrom(text, "\n", i + 3)
    ensures ExtractIndexHtml(text) == ""
  {
    assert !Contains(text, HtmlFence);
    FindFirst(text, Fence, 0, i);
    assert Find(text, "\n", i + 3) == -1;
    assert Find(text, Fence, -1) == -1;
  }

  /** No fence at all: the whole reply, stripped. */
  lemma NoBlock(text: string)
    requires NoneFrom(text, Fence, 0)
    ensures ExtractIndexHtml(text) == Strip(text)
  {
    if Contains(text, HtmlFence) {
      var i :| OccursAt(text, HtmlFence, i);
      FenceInHtmlFence(text, i);
    }
  }

  /** A reply that wraps a page in one `html`-tagged block, with no backtick
      in front of the block or inside it, yields that page, stripped. */
  lemma HtmlBlockRoundTrip(before: string, body: string, after: string)
    requires forall k :: 0 <= k < |before| ==> before[k] != '`'
    requires forall k :: 0 <= k < |body| ==> body[k] != '`'
    ensures ExtractIndexHtml(before + HtmlFence + body + Fence + after) == Strip(body)
  {
    var text := before + HtmlFence + body + Fence + after;
    var i := |before|;
    var j := i + 7 + |body|;
    assert text[..i] == before && text[i..i + 7] == HtmlFence;
    assert text[i + 7..j] == body && text[j..j + 3] == Fence;
    assert FirstAt(text, HtmlFence, 0, i) by {
      SliceHasNoBacktick(text, 0, i);
      NoBacktickNoOccurrence(text, HtmlFence, 0, i);
    }
    assert FirstAt(text, Fence, i + 7, j) by {
      SliceHasNoBacktick(text, i + 7, j);
      NoBacktickNoOccurrence(text, Fence, i + 7, j);
    }
    HtmlBlock(text, i, j);
  }

  lemma SliceHasNoBacktick(text: string, lo: nat, hi: nat)
    requires lo <= hi <= |text|
    requires forall k :: 0 <= k < hi - lo ==> text[lo..hi][k] != '`'
    ensures forall k :: lo <= k < hi ==> text[k] != '`'
  {
    forall k | lo <= k < hi
      ensures text[k] != '`'
    {
      assert text[k] == text[lo..hi][k - lo];
    }
  }

  /** A fence cannot start where there is no backtick. */
  lemma NoBacktickNoOccurrence(text: string, sub: string, lo: nat, hi: nat)
    requires sub != [] && sub[0] == '`' && hi <= |text|
    requires forall k :: lo <= k < hi ==> text[k] != '`'
    ensures forall k :: lo <= k < hi ==> !OccursAt(text, sub, k)
  {
    forall k | lo <= k < hi
      ensures !OccursAt(text, sub, k)
    {
      if k + |sub| <= |text| {
        assert text[k..k + |sub|][0] == text[k];
      }
    }
  }

  // ---------------------------------------------------------------------
  // The generator object

  /** The texts the generator fills in: the two prompts, the README and
      the license.  Their wording is not modelled; only what each is built
      from is. */
  datatype Templates = Templates(
    appPrompt: (string, seq<string>, seq<AttachmentInfo>) -> string,
    updatePrompt: (string, string, seq<string>, seq<AttachmentInfo>) -> string,
    readme: (string, seq<string>, Option<string>, seq<AttachmentInfo>) -> string,
    license: string)

  class Generator {
    const hasGemini: bool
    const hasAipipe: bool
    const primary: Provider
    /** `last_provider_used`: who served the last successful request. */
    var lastProviderUsed: Option<string>

    /** The primary provider is one that is configured. */
    ghost predicate Valid() {
      (primary == Gemini ==> hasGemini) && (primary == AIpipe ==> hasAipipe)
    }

    /** `LLMGenerator()` when at least one provider is configured. */
    constructor (useAipipe: bool, hasGemini: bool, hasAipipe: bool)
      requires hasGemini || hasAipipe
      ensures Valid()
      ensures SelectPrimary(useAipipe, hasGemini, hasAipipe) == Some(primary)
      ensures this.hasGemini == hasGemini && this.hasAipipe == hasAipipe
      ensures lastProviderUsed == None
    {
      this.hasGemini := hasGemini;
      this.hasAipipe := hasAipipe;
      primary := SelectPrimary(useAipipe, hasGemini, hasAipipe).value;
      lastProviderUsed := None;
    }

    /** `LLMGenerator()`, including the `ValueError` when no provider is
        configured. */
    static method Create(useAipipe: bool, hasGemini: bool, hasAipipe: bool)
      returns (r: Result<Generator, string>)
      ensures r.Failure? <==> !hasGemini && !hasAipipe
      ensures r.Failure? ==> r.error == NoProviderMessage
      ensures r.Success? ==>
        && fresh(r.value) && r.value.Valid()
        && SelectPrimary(useAipipe, hasGemini, hasAipipe) == Some(r.value.primary)
        && r.value.lastProviderUsed == None
    {
      if !hasGemini && !hasAipipe {
        return Failure(NoProviderMessage);
      }
      var g := new Generator(useAipipe, hasGemini, hasAipipe);
      return Success(g);
    }

    /** `_generate_with_fallback(prompt, generation_config)`; `gemini` and
        `aipipe` are the outcomes the two providers' calls have. */
    method GenerateWithFallback(prompt: string, config: Option<GenerationConfig>,
                                gemini: CallOutcome, aipipe: CallOutcome)
      returns (r: Result<Response, string>, calls: seq<Call>)
      modifies this
      ensures var a := Failover(primary, hasGemini, hasAipipe, prompt, config, gemini, aipipe);
        && r == a.result && calls == a.calls
        && lastProviderUsed == (if a.servedBy.Some? then a.servedBy else old(lastProviderUsed))
    {
      var errors: seq<string> := [];
      calls := [];
      if primary == Gemini && hasGemini {
        calls := calls + [Call(Gemini, prompt, config)];
        if gemini.Ok? {
          lastProviderUsed := Some("Gemini");
          return Success(gemini.response), calls;
        }
        errors := errors + [FailureNote(Gemini, false, gemini.message)];
        if IsTransient(gemini.message) {
          if hasAipipe {
            calls := calls + [Call(AIpipe, prompt, None)];
            if aipipe.Ok? {
              lastProviderUsed := Some("AIpipe (fallback)");
              return Success(aipipe.response), calls;
            }
            errors := errors + [FailureNote(AIpipe, true, aipipe.message)];
          }
        }
        return Failure(BothFailed(errors)), calls;
      } else if primary == AIpipe && hasAipipe {
        calls := calls + [Call(AIpipe, prompt, None)];
        if aipipe.Ok? {
          lastProviderUsed := Some("AIpipe");
          return Success(aipipe.response), calls;
        }
        errors := errors + [FailureNote(AIpipe, false, aipipe.message)];
        if hasGemini {
          calls := calls + [Call(Gemini, prompt, config)];
          if gemini.Ok? {
            lastProviderUsed := Some("Gemini (fallback)");
            return Success(gemini.response), calls;
          }
          errors := errors + [FailureNote(Gemini, true, gemini.message)];
        }
        return Failure(BothFailed(errors)), calls;
      }
      return Failure(NoProviderAvailable), calls;
    }

    /** `generate_app(brief, checks, attachments, task_id)`: the parsed page
        followed by the README and the license, or the generation error. */
    method GenerateApp(brief: string, checks: seq<string>, attachments: Option<seq<AttachmentIn>>,
                       taskId: Option<string>, codec: Codec, templates: Templates,
                       gemini: CallOutcome, aipipe: CallOutcome)
      returns (r: Result<FileSet, string>)
      modifies this
      ensures var info := DescribeAll(Items(attachments), codec);
        var a := Failover(primary, hasGemini, hasAipipe, templates.appPrompt(brief, checks, info),
                          Some(DefaultConfig), gemini, aipipe);
        && (r.Success? <==> a.result.Success?)
        && (r.Failure? ==> r.error == a.result.error)
        && (r.Success? ==> r.value == [("index.html", ExtractIndexHtml(ResponseText(a.result.value))),
                                       ("README.md", templates.readme(brief, checks, taskId, info)),
                                       ("LICENSE", templates.license)])
        && lastProviderUsed == (if a.servedBy.Some? then a.servedBy else old(lastProviderUsed))
    {
      var info := ProcessAttachments(attachments, codec);
      var prompt := templates.appPrompt(brief, checks, info);
      var response, _ := GenerateWithFallback(prompt, Some(DefaultConfig), gemini, aipipe);
      if response.Failure? {
        return Failure(response.error);
      }
      var text := ExtractResponseText(response.value);
      var files := ParseResponse(text);
      var readme := templates.readme(brief, checks, taskId, info);
      AddedAfterPage(ExtractIndexHtml(text), readme, templates.license);
      files := Put(files, "README.md", readme);
      files := Put(files, "LICENSE", templates.license);
      return Success(files);
    }

    /** Adding the README and then the license to the parsed page appends
        them, in that order. */
    static lemma AddedAfterPage(page: string, readme: string, license: string)
      ensures Put(Put([("index.html", page)], "README.md", readme), "LICENSE", license)
              == [("index.html", page), ("README.md", readme), ("LICENSE", license)]
    {
      var one := [("index.html", page)];
      assert Paths(one) == ["index.html"];
      var two := Put(one, "README.md", readme);
      assert two == [("index.html", page), ("README.md", readme)];
      assert Paths(two) == ["index.html", "README.md"];
    }

    /** `update_app(existing_code, brief, checks, attachments)`: only the
        parsed page, or the generation error. */
    method UpdateApp(existingCode: string, brief: string, checks: seq<string>,
                     attachments: Option<seq<AttachmentIn>>, codec: Codec, templates: Templates,
                     gemini: CallOutcome, aipipe: CallOutcome)
      returns (r: Result<FileSet, string>)
      modifies this
      ensures var info := DescribeAll(Items(attachments), codec);
        var a := Failover(primary, hasGemini, hasAipipe, templates.updatePrompt(existingCode, brief, checks, info),
                          Some(DefaultConfig), gemini, aipipe);
        && (r.Success? <==> a.result.Success?)
        && (r.Failure? ==> r.error == a.result.error)
        && (r.Success? ==> r.value == [("index.html", ExtractIndexHtml(ResponseText(a.result.value)))])
        && lastProviderUsed == (if a.servedBy.Some? then a.servedBy else old(lastProviderUsed))
      ensures r.Success? ==> Paths(r.value) == ["index.html"]
    {
      var info := ProcessAttachments(attachments, codec);
      var prompt := templates.updatePrompt(existingCode, brief, checks, info);
      var response, _ := GenerateWithFallback(prompt, Some(DefaultConfig), gemini, aipipe);
      if response.Failure? {
        return Failure(response.error);
      }
      var text := ExtractResponseText(response.value);
      return Success(ParseResponse(text));
    }
  }
}
