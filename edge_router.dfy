/**
 * The chat edge function of supabase/functions/chat/index.ts: it selects a
 * system prompt, maps the client's messages to the providers' formats,
 * optionally asks several providers in turn for a cross-validated answer,
 * forwards the primary provider's event stream, and maps failures to JSON
 * error responses.
 *
 * The environment (`Deno.env.get`), `fetch`, `JSON.stringify`,
 * `toLowerCase` and the clock are oracles or parameters; the long prompt
 * texts are opaque.
 */
module EdgeRouter {
  import opened Js

  // ---------------------------------------------------------------------
  // Prompt selection (line 278, and line 154 inside crossValidateResponse)
  // ---------------------------------------------------------------------

  /** The two built-in system prompts, `SYSTEM_PROMPTS.medicine` and `SYSTEM_PROMPTS.informatique`. */
  datatype PromptKey = MedicinePrompt | InformatiquePrompt

  /** The system prompt in force: a built-in one or the client's override text. */
  datatype Prompt = Builtin(key: PromptKey) | Override(text: string)

  /**
   * `systemOverride || SYSTEM_PROMPTS[mode] || SYSTEM_PROMPTS.medicine`.
   * `systemOverride` is None when absent; a non-empty override wins, an
   * unknown mode falls back to the medicine prompt.
   */
  function SelectPrompt(systemOverride: Option<string>, mode: string): (p: Prompt)
    ensures p.Override? <==> systemOverride.Some? && systemOverride.value != ""
    ensures p.Override? ==> p.text == systemOverride.value
    ensures p == Builtin(InformatiquePrompt) <==> (p.Builtin? && mode == "informatique")
  {
    if systemOverride.Some? && systemOverride.value != "" then Override(systemOverride.value)
    else if mode == "medicine" then Builtin(MedicinePrompt)
    else if mode == "informatique" then Builtin(InformatiquePrompt)
    else Builtin(MedicinePrompt)
  }

  /** The built-in prompt is chosen by mode alone whenever there is no override. */
  lemma {:induction false} PromptWithoutOverride(systemOverride: Option<string>, mode: string)
    requires systemOverride.None? || systemOverride.value == ""
    ensures SelectPrompt(systemOverride, mode) == SelectPrompt(None, mode)
    ensures mode != "informatique" ==> SelectPrompt(systemOverride, mode) == Builtin(MedicinePrompt)
  {
  }

  // ---------------------------------------------------------------------
  // Message mapping (lines 281-295 and 208-222; Gemini: lines 159-176)
  // ---------------------------------------------------------------------

  /** A message as the client posts it; "" stands for an absent `content` or `imageBase64`. */
  datatype InMessage = InMessage(role: string, content: string, imageBase64: string)

  /** One part of an OpenAI-style multi-part user message. */
  datatype Part = TextPart(text: string) | ImageUrlPart(url: string)

  /** An OpenAI-style chat message: plain text content, or a user message made of parts. */
  datatype ApiMessage =
    | TextMessage(role: string, content: string)
    | SystemMessage(prompt: Prompt)
    | PartsMessage(parts: seq<Part>)   // role "user"

  /**
   * The OpenAI-style form of one client message: a user message with an
   * image becomes parts, its text (when there is any) before the image;
   * every other message keeps its role and text.
   */
  function ToApiMessage(m: InMessage): (a: ApiMessage)
    ensures !a.SystemMessage?
    ensures a.PartsMessage? <==> m.imageBase64 != "" && m.role == "user"
    ensures a.TextMessage? ==> a == TextMessage(m.role, m.content)
    ensures a.PartsMessage? ==>
              && |a.parts| >= 1 && a.parts[|a.parts| - 1] == ImageUrlPart(m.imageBase64)
              && (|a.parts| == 2 <==> m.content != "")
              && (|a.parts| == 2 ==> a.parts[0] == TextPart(m.content))
  {
    if m.imageBase64 != "" && m.role == "user" then
      PartsMessage((if m.content != "" then [TextPart(m.content)] else []) + [ImageUrlPart(m.imageBase64)])
    else TextMessage(m.role, m.content)
  }

  /** Reads a client message back from its OpenAI-style form. */
  function FromApiMessage(a: ApiMessage): InMessage {
    match a
    case TextMessage(role, content) => InMessage(role, content, "")
    case SystemMessage(_) => InMessage("system", "", "")
    case PartsMessage(parts) =>
      var text := if |parts| == 2 && parts[0].TextPart? then parts[0].text else "";
      var url := if |parts| > 0 && parts[|parts| - 1].ImageUrlPart? then parts[|parts| - 1].url else "";
      InMessage("user", text, url)
  }

  /**
   * The mapping loses nothing of a user message or of a message without an
   * image: the role, the text and the image come back unchanged.
   */
  lemma {:induction false} ApiMessageRoundTrip(m: InMessage)
    requires m.role == "user" || m.imageBase64 == ""
    ensures FromApiMessage(ToApiMessage(m)) == m
  {
  }

  /** An image attached to any message other than a user message is dropped. */
  lemma {:induction false} ApiMessageDropsForeignImage(m: InMessage)
    requires m.role != "user" && m.imageBase64 != ""
    ensures ToApiMessage(m) == TextMessage(m.role, m.content)
    ensures FromApiMessage(ToApiMessage(m)).imageBase64 == ""
  {
  }

  /** The message list sent to an OpenAI-style provider: the system prompt, then each message in order. */
  function BuildApiMessages(prompt: Prompt, messages: seq<InMessage>): (r: seq<ApiMessage>)
    ensures |r| == |messages| + 1
    ensures r[0] == SystemMessage(prompt)
    ensures forall i :: 0 <= i < |messages| ==> r[i + 1] == ToApiMessage(messages[i])
  {
    [SystemMessage(prompt)] + seq(|messages|, i requires 0 <= i < |messages| => ToApiMessage(messages[i]))
  }

  /**
   * `s.split(',')[1]`: the text between the first and the second comma (or
   * the end); None when there is no comma.
   */
  function DataField(uri: string): (r: Option<string>)
    ensures r.None? <==> ',' !in uri
    ensures r.Some? ==> ',' !in r.value
  {
    var i := IndexOf(uri, ',');
    if i < 0 then None
    else
      var rest := uri[i + 1..];
      var j := IndexOf(rest, ',');
      Some(if j < 0 then rest else rest[..j])
  }

  /** For an RFC 2397 data URI with base64 data (no comma after the header's), the field is exactly the data. */
  lemma {:induction false} DataFieldOfDataUri(header: string, payload: string)
    requires ',' !in header && ',' !in payload
    ensures DataField(header + "," + payload) == Some(payload)
  {
    var uri := header + "," + payload;
    assert uri == header + [','] + payload;
    IndexOfFirst(header, ',', payload);
    assert uri[|header| + 1..] == payload;
  }

  /** A part of a Gemini message. */
  datatype GeminiPart = GeminiText(text: string) | InlineData(mimeType: string, data: Option<string>)

  datatype GeminiMessage = GeminiMessage(role: string, parts: seq<GeminiPart>)

  /**
   * The Gemini form of one client message: the role is kept; a user message
   * with an image ends with the image as inline JPEG data, after its text
   * when there is any; every other message is its text as a single part.
   */
  function ToGeminiMessage(m: InMessage): (g: GeminiMessage)
    ensures g.role == m.role
    ensures |g.parts| >= 1
    ensures !(m.imageBase64 != "" && m.role == "user") ==> g.parts == [GeminiText(m.content)]
    ensures m.imageBase64 != "" && m.role == "user" ==>
              && g.parts[|g.parts| - 1] == InlineData("image/jpeg", DataField(m.imageBase64))
              && (|g.parts| == 2 <==> m.content != "")
              && (|g.parts| == 2 ==> g.parts[0] == GeminiText(m.content))
  {
    if m.imageBase64 != "" && m.role == "user" then
      GeminiMessage("user", (if m.content != "" then [GeminiText(m.content)] else [])
                            + [InlineData("image/jpeg", DataField(m.imageBase64))])
    else GeminiMessage(m.role, [GeminiText(m.content)])
  }

  /**
   * The Gemini mapping keeps every message, carries no system entry, and an
   * image part is a JPEG whose data is the data URI's payload.
   */
  lemma {:induction false} GeminiImagePart(m: InMessage, header: string, payload: string)
    requires m.role == "user" && m.imageBase64 == header + "," + payload
    requires ',' !in header && ',' !in payload
    ensures var g := ToGeminiMessage(m);
            g.parts[|g.parts| - 1] == InlineData("image/jpeg", Some(payload))
            && (m.content != "" <==> |g.parts| == 2)
  {
    DataFieldOfDataUri(header, payload);
  }

  function GeminiContents(messages: seq<InMessage>): (r: seq<GeminiMessage>)
    ensures |r| == |messages|
    ensures forall i :: 0 <= i < |messages| ==> r[i] == ToGeminiMessage(messages[i])
  {
    seq(|messages|, i requires 0 <= i < |messages| => ToGeminiMessage(messages[i]))
  }

  // ---------------------------------------------------------------------
  // Cross-validation (lines 144-260)
  // ---------------------------------------------------------------------

  datatype Provider = OpenAi | DeepSeek | ClaudeProvider | GeminiProvider

  /** The providers, in the order they are asked. */
  const Providers: seq<Provider> := [OpenAi, DeepSeek, ClaudeProvider, GeminiProvider]

  function ProviderName(p: Provider): string {
    match p
    case OpenAi => "openai"
    case DeepSeek => "deepseek"
    case ClaudeProvider => "claude"
    case GeminiProvider => "gemini"
  }

  function ProviderModel(p: Provider): string {
    match p
    case OpenAi => "gpt-4-vision-preview"
    case DeepSeek => "deepseek-chat"
    case ClaudeProvider => "claude-3-sonnet-20240229"
    case GeminiProvider => "gemini-1.5-pro-latest"
  }

  /** `${provider.toUpperCase()}_API_KEY`. */
  function KeyName(p: Provider): string {
    match p
    case OpenAi => "OPENAI_API_KEY"
    case DeepSeek => "DEEPSEEK_API_KEY"
    case ClaudeProvider => "CLAUDE_API_KEY"
    case GeminiProvider => "GEMINI_API_KEY"
  }

  /** The API key of a provider: set and non-empty. */
  function ApiKey(env: string -> Option<string>, p: Provider): Option<string> {
    var v := env(KeyName(p));
    if v.Some? && v.value != "" then v else None
  }

  /** The body posted to a provider. */
  datatype ProviderBody =
    | OpenAiStyle(model: string, messages: seq<ApiMessage>)   // max_tokens 500, stream: true
    | GeminiStyle(contents: seq<GeminiMessage>)

  datatype ProviderCall = ProviderCall(provider: Provider, apiKey: string, body: ProviderBody)

  /** The three places an answer is read from in a provider's JSON reply; None where the path is missing. */
  datatype ProviderJson = ProviderJson(
    candidateText: Option<string>,   // candidates[0].content.parts[0].text
    claudeText: Option<string>,      // content[0].text
    choiceContent: Option<string>)   // choices[0].message.content

  /** What a provider call gives: a thrown error, a non-OK status, or an OK reply whose body may not be JSON. */
  datatype ProviderReply = CallThrew | CallNotOk | CallOk(json: Option<ProviderJson>)

  /** The content read from a provider's reply, "" when missing. */
  function Extract(p: Provider, j: ProviderJson): string {
    var v := match p
      case GeminiProvider => j.candidateText
      case ClaudeProvider => j.claudeText
      case _ => j.choiceContent;
    if v.Some? then v.value else ""
  }

  /**
   * How `systemOverride` resolves at line 154: in the source the name has
   * no binding in crossValidateResponse's scope, so reading it throws.
   */
  datatype OverrideScope = Unbound | Bound(systemOverride: Option<string>)

  function BodyFor(p: Provider, prompt: Prompt, messages: seq<InMessage>): ProviderBody {
    if p == GeminiProvider then GeminiStyle(GeminiContents(messages))
    else OpenAiStyle(ProviderModel(p), BuildApiMessages(prompt, messages))
  }

  /** The call made to `p`, if one is made: only with a key, and only once the prompt resolves. */
  function CallFor(p: Provider, scope: OverrideScope, messages: seq<InMessage>, mode: string,
                   env: string -> Option<string>): Option<ProviderCall>
  {
    match ApiKey(env, p)
    case None => None
    case Some(key) =>
      match scope
      case Unbound => None
      case Bound(o) => Some(ProviderCall(p, key, BodyFor(p, SelectPrompt(o, mode), messages)))
  }

  /** The non-empty answer `p` contributes, if any. */
  function AnswerOf(p: Provider, scope: OverrideScope, messages: seq<InMessage>, mode: string,
                    env: string -> Option<string>, fetch: ProviderCall -> ProviderReply): (a: Option<string>)
    ensures a.Some? ==> a.value != "" && CallFor(p, scope, messages, mode, env).Some?
  {
    match CallFor(p, scope, messages, mode, env)
    case None => None
    case Some(call) =>
      match fetch(call)
      case CallOk(Some(j)) => if Extract(p, j) != "" then Some(Extract(p, j)) else None
      case _ => None
  }

  /** The calls made for the providers `ps`, in order. */
  function CallsFor(ps: seq<Provider>, scope: OverrideScope, messages: seq<InMessage>, mode: string,
                    env: string -> Option<string>): seq<ProviderCall>
  {
    if ps == [] then []
    else
      var c := CallFor(ps[|ps| - 1], scope, messages, mode, env);
      CallsFor(ps[..|ps| - 1], scope, messages, mode, env) + (if c.Some? then [c.value] else [])
  }

  /** The answers collected from the providers `ps`, in order. */
  function AnswersFor(ps: seq<Provider>, scope: OverrideScope, messages: seq<InMessage>, mode: string,
                      env: string -> Option<string>, fetch: ProviderCall -> ProviderReply): (r: seq<string>)
    ensures forall k :: 0 <= k < |r| ==> r[k] != ""
  {
    if ps == [] then []
    else
      var a := AnswerOf(ps[|ps| - 1], scope, messages, mode, env, fetch);
      AnswersFor(ps[..|ps| - 1], scope, messages, mode, env, fetch) + (if a.Some? then [a.value] else [])
  }

  /** Adding one provider at the end adds its call and its answer, if any. */
  lemma {:induction false} ForStep(ps: seq<Provider>, p: Provider, scope: OverrideScope, messages: seq<InMessage>, mode: string,
                env: string -> Option<string>, fetch: ProviderCall -> ProviderReply)
    ensures var c := CallFor(p, scope, messages, mode, env);
            CallsFor(ps + [p], scope, messages, mode, env) ==
              CallsFor(ps, scope, messages, mode, env) + (if c.Some? then [c.value] else [])
    ensures var a := AnswerOf(p, scope, messages, mode, env, fetch);
            AnswersFor(ps + [p], scope, messages, mode, env, fetch) ==
              AnswersFor(ps, scope, messages, mode, env, fetch) + (if a.Some? then [a.value] else [])
  {
    assert (ps + [p])[..|ps + [p]| - 1] == ps;
  }

  /** What `crossValidateResponse` returns: the first answer, or "". */
  function CrossValidated(scope: OverrideScope, messages: seq<InMessage>, mode: string,
                          env: string -> Option<string>, fetch: ProviderCall -> ProviderReply): (r: string)
    ensures var rs := AnswersFor(Providers, scope, messages, mode, env, fetch);
            (r == "" <==> rs == []) && (rs != [] ==> r == rs[0])
  {
    var rs := AnswersFor(Providers, scope, messages, mode, env, fetch);
    if |rs| > 0 then rs[0] else ""
  }

  /**
   * `crossValidateResponse`: ask every keyed provider in turn, swallow each
   * failure, and return the first non-empty answer (or ""). Returns also the
   * calls it made, in order.
   */
  method CrossValidateResponse(scope: OverrideScope, messages: seq<InMessage>, mode: string,
                               env: string -> Option<string>, fetch: ProviderCall -> ProviderReply)
    returns (answer: string, calls: seq<ProviderCall>)
    ensures answer == CrossValidated(scope, messages, mode, env, fetch)
    ensures calls == CallsFor(Providers, scope, messages, mode, env)
  {
    var responses: seq<string> := [];
    calls := [];
    for n := 0 to |Providers|
      invariant responses == AnswersFor(Providers[..n], scope, messages, mode, env, fetch)
      invariant calls == CallsFor(Providers[..n], scope, messages, mode, env)
    {
      var provider := Providers[n];
      assert Providers[..n + 1] == Providers[..n] + [provider];
      ForStep(Providers[..n], provider, scope, messages, mode, env, fetch);
      var apiKey := env(KeyName(provider));
      if apiKey.None? || apiKey.value == "" {
        assert ApiKey(env, provider).None?;
        assert CallFor(provider, scope, messages, mode, env).None?;
        continue;
      }
      if scope.Unbound? {
        // reading `systemOverride` throws a ReferenceError; the catch swallows it
        assert CallFor(provider, scope, messages, mode, env).None?;
        continue;
      }
      var systemPrompt := SelectPrompt(scope.systemOverride, mode);
      var call := ProviderCall(provider, apiKey.value, BodyFor(provider, systemPrompt, messages));
      assert CallFor(provider, scope, messages, mode, env) == Some(call);
      calls := calls + [call];
      var reply := fetch(call);
      if reply.CallOk? && reply.json.Some? {
        var content := Extract(provider, reply.json.value);
        if content != "" {
          assert AnswerOf(provider, scope, messages, mode, env, fetch) == Some(content);
          responses := responses + [content];
        } else {
          assert AnswerOf(provider, scope, messages, mode, env, fetch).None?;
        }
      } else {
        assert AnswerOf(provider, scope, messages, mode, env, fetch).None?;
      }
    }
    assert Providers[..|Providers|] == Providers;
    answer := if |responses| > 0 then responses[0] else "";
  }

  lemma {:induction false} UnboundMakesNoCall(ps: seq<Provider>, messages: seq<InMessage>, mode: string,
                                              env: string -> Option<string>, fetch: ProviderCall -> ProviderReply)
    ensures CallsFor(ps, Unbound, messages, mode, env) == []
    ensures AnswersFor(ps, Unbound, messages, mode, env, fetch) == []
  {
    if ps != [] {
      UnboundMakesNoCall(ps[..|ps| - 1], messages, mode, env, fetch);
    }
  }

  /**
   * As written, cross-validation never answers: every keyed provider fails
   * on the unbound `systemOverride` before its request is sent, so no
   * provider is called and the result is "".
   */
  lemma {:induction false} CrossValidationNeverAnswers(messages: seq<InMessage>, mode: string,
                                    env: string -> Option<string>, fetch: ProviderCall -> ProviderReply)
    ensures CrossValidated(Unbound, messages, mode, env, fetch) == ""
    ensures CallsFor(Providers, Unbound, messages, mode, env) == []
  {
    UnboundMakesNoCall(Providers, messages, mode, env, fetch);
  }

  /** The values of the options that are present, in order. */
  function Present(os: seq<Option<string>>): seq<string> {
    if os == [] then []
    else Present(os[..|os| - 1]) + (if os[|os| - 1].Some? then [os[|os| - 1].value] else [])
  }

  lemma {:induction false} PresentEmptyIff(os: seq<Option<string>>)
    ensures Present(os) == [] <==> forall k :: 0 <= k < |os| ==> os[k].None?
  {
    if os != [] {
      var init := os[..|os| - 1];
      PresentEmptyIff(init);
      assert forall k :: 0 <= k < |init| ==> init[k] == os[k];
    }
  }

  lemma {:induction false} PresentFirst(os: seq<Option<string>>, i: nat)
    requires i < |os| && os[i].Some?
    requires forall k :: 0 <= k < i ==> os[k].None?
    ensures Present(os) != [] && Present(os)[0] == os[i].value
    decreases |os|
  {
    var init := os[..|os| - 1];
    assert forall k :: 0 <= k < |init| ==> init[k] == os[k];
    if i < |os| - 1 {
      PresentFirst(init, i);
    } else {
      PresentEmptyIff(init);
    }
  }

  /** Each provider's answer, in order. */
  function AnswerList(ps: seq<Provider>, scope: OverrideScope, messages: seq<InMessage>, mode: string,
                      env: string -> Option<string>, fetch: ProviderCall -> ProviderReply): (os: seq<Option<string>>)
    ensures |os| == |ps|
    ensures forall k :: 0 <= k < |ps| ==> os[k] == AnswerOf(ps[k], scope, messages, mode, env, fetch)
  {
    seq(|ps|, k requires 0 <= k < |ps| => AnswerOf(ps[k], scope, messages, mode, env, fetch))
  }

  lemma {:induction false} AnswersForPresent(ps: seq<Provider>, scope: OverrideScope, messages: seq<InMessage>, mode: string,
                                             env: string -> Option<string>, fetch: ProviderCall -> ProviderReply)
    ensures AnswersFor(ps, scope, messages, mode, env, fetch) == Present(AnswerList(ps, scope, messages, mode, env, fetch))
  {
    if ps != [] {
      var init := ps[..|ps| - 1];
      var os := AnswerList(ps, scope, messages, mode, env, fetch);
      AnswersForPresent(init, scope, messages, mode, env, fetch);
      assert os[..|os| - 1] == AnswerList(init, scope, messages, mode, env, fetch);
    }
  }

  /** No answers are collected exactly when no provider answers. */
  lemma {:induction false} AnswersEmptyIff(ps: seq<Provider>, scope: OverrideScope, messages: seq<InMessage>, mode: string,
                                           env: string -> Option<string>, fetch: ProviderCall -> ProviderReply)
    ensures AnswersFor(ps, scope, messages, mode, env, fetch) == [] <==>
              forall k :: 0 <= k < |ps| ==> AnswerOf(ps[k], scope, messages, mode, env, fetch).None?
  {
    AnswersForPresent(ps, scope, messages, mode, env, fetch);
    PresentEmptyIff(AnswerList(ps, scope, messages, mode, env, fetch));
  }

  /** The first collected answer is the answer of the first provider that answers. */
  lemma {:induction false} AnswersFirst(ps: seq<Provider>, i: nat, scope: OverrideScope, messages: seq<InMessage>, mode: string,
                                        env: string -> Option<string>, fetch: ProviderCall -> ProviderReply)
    requires i < |ps|
    requires AnswerOf(ps[i], scope, messages, mode, env, fetch).Some?
    requires forall k :: 0 <= k < i ==> AnswerOf(ps[k], scope, messages, mode, env, fetch).None?
    ensures var rs := AnswersFor(ps, scope, messages, mode, env, fetch);
            |rs| > 0 && rs[0] == AnswerOf(ps[i], scope, messages, mode, env, fetch).value
  {
    AnswersForPresent(ps, scope, messages, mode, env, fetch);
    PresentFirst(AnswerList(ps, scope, messages, mode, env, fetch), i);
  }

  /**
   * With `systemOverride` in scope, cross-validation answers with the first
   * provider, in the fixed order, that has a key and replies with non-empty
   * content; it answers "" exactly when no provider does.
   */
  lemma {:induction false} CrossValidationFirstAnswer(o: Option<string>, messages: seq<InMessage>, mode: string,
                                   env: string -> Option<string>, fetch: ProviderCall -> ProviderReply, i: nat)
    requires i < |Providers|
    requires AnswerOf(Providers[i], Bound(o), messages, mode, env, fetch).Some?
    requires forall k :: 0 <= k < i ==> AnswerOf(Providers[k], Bound(o), messages, mode, env, fetch).None?
    ensures CrossValidated(Bound(o), messages, mode, env, fetch) == AnswerOf(Providers[i], Bound(o), messages, mode, env, fetch).value
    ensures CrossValidated(Bound(o), messages, mode, env, fetch) != ""
  {
    AnswersFirst(Providers, i, Bound(o), messages, mode, env, fetch);
  }

  lemma {:induction false} CrossValidationEmpty(o: Option<string>, messages: seq<InMessage>, mode: string,
                             env: string -> Option<string>, fetch: ProviderCall -> ProviderReply)
    ensures CrossValidated(Bound(o), messages, mode, env, fetch) == "" <==>
              forall k :: 0 <= k < |Providers| ==> AnswerOf(Providers[k], Bound(o), messages, mode, env, fetch).None?
  {
    AnswersEmptyIff(Providers, Bound(o), messages, mode, env, fetch);
  }

  // ---------------------------------------------------------------------
  // validateMedicalSources (lines 118-141; defined, never called)
  // ---------------------------------------------------------------------

  const PubMedSource: string := "PubMed: Clinical Guidelines 2024"
  const UpToDateSource: string := "UpToDate: Diagnostic Criteria 2024"
  const WhoSource: string := "WHO Guidelines 2024"
  const DefaultSource: string := "Source: Base de données médicales validées"
  const FallbackSource: string := "Source: Vérification automatique des sources médicales"

  /**
   * `validateMedicalSources`. The query is None when it is not a string
   * (then `toLowerCase` throws and the catch answers); `lower` is
   * `toLowerCase`.
   */
  method ValidateMedicalSources(query: Option<string>, lower: string -> string) returns (sources: seq<string>)
    ensures query.None? ==> sources == [FallbackSource]
    ensures query.Some? ==>
              var q := lower(query.value);
              var hits := (if Contains(q, "traitement") || Contains(q, "thérapie") then [PubMedSource] else [])
                        + (if Contains(q, "diagnostic") || Contains(q, "symptôme") then [UpToDateSource] else [])
                        + (if Contains(q, "recommandation") || Contains(q, "guideline") then [WhoSource] else []);
              sources == if hits == [] then [DefaultSource] else hits
  {
    if query.None? {
      return [FallbackSource];
    }
    var q := lower(query.value);
    sources := [];
    if Contains(q, "traitement") || Contains(q, "thérapie") {
      sources := sources + [PubMedSource];
    }
    if Contains(q, "diagnostic") || Contains(q, "symptôme") {
      sources := sources + [UpToDateSource];
    }
    if Contains(q, "recommandation") || Contains(q, "guideline") {
      sources := sources + [WhoSource];
    }
    if |sources| == 0 {
      sources := [DefaultSource];
    }
  }

  // ---------------------------------------------------------------------
  // Responses: the cross-validated frame, the upstream status, the errors
  // ---------------------------------------------------------------------

  /** A response of the edge function (CORS headers on all of them). */
  datatype Response =
    | Preflight                               // OPTIONS: null body
    | JsonError(status: int, error: string)   // application/json `{ error }`
    | EventStream(body: string)               // text/event-stream, status 200

  /**
   * `data: ${JSON.stringify({ choices: [{ delta: { content } }] })}\n\n`;
   * `stringify` gives the JSON text of that envelope for a content.
   */
  function SseFrame(stringify: string -> string, content: string): (f: string)
    ensures "data: " <= f
    ensures |f| >= 2 && f[|f| - 2..] == "\n\n"
  {
    "data: " + stringify(content) + "\n\n"
  }

  const RateLimitMessage: string := "Limite de requêtes atteinte, réessayez dans un moment."
  const CreditsMessage: string := "Crédits AI épuisés. Veuillez recharger."
  const ServiceErrorMessage: string := "Erreur du service AI"

  /** The primary provider's reply: its HTTP status and body. */
  datatype Upstream = Upstream(status: int, body: string)

  predicate IsOk(status: int) {
    200 <= status <= 299
  }

  /** The response built from the primary provider's reply. */
  function UpstreamResponse(u: Upstream): (r: Response)
    ensures r.EventStream? <==> IsOk(u.status)
    ensures r.EventStream? ==> r.body == u.body
    ensures r.JsonError? ==> r.status in {429, 402, 500}
    ensures r.JsonError? ==> (r.status == 429 <==> u.status == 429) && (r.status == 402 <==> u.status == 402)
  {
    if IsOk(u.status) then EventStream(u.body)
    else if u.status == 429 then JsonError(429, RateLimitMessage)
    else if u.status == 402 then JsonError(402, CreditsMessage)
    else JsonError(500, ServiceErrorMessage)
  }

  /** What a `throw` carries: an Error with its message, or any other value. */
  datatype Thrown = ErrorValue(message: string) | OtherValue

  const TimeoutMessage: string := "Délai de réponse ultra-rapide dépassé"
  const TimeoutAdvice: string := "Délai de réponse dépassé. Veuillez simplifier votre question."
  const UnknownError: string := "Erreur inconnue"
  const MissingKeyMessage: string := "LOVABLE_API_KEY is not configured"

  /** The error text of the catch block, as written: only a lowercase "délai" is recognised. */
  function ErrorMessage(e: Thrown): (m: string)
    ensures e.OtherValue? ==> m == UnknownError
    ensures e.ErrorValue? && Contains(e.message, "délai") ==> m == TimeoutAdvice
    ensures e.ErrorValue? && !Contains(e.message, "délai") ==> m == e.message
  {
    match e
    case OtherValue => UnknownError
    case ErrorValue(msg) => if Contains(msg, "délai") then TimeoutAdvice else msg
  }

  /** The timeout's own message has no lowercase "délai": it starts with "Délai". */
  lemma {:induction false} TimeoutLacksLowercaseDelai()
    ensures !Contains(TimeoutMessage, "délai")
  {
    var t := TimeoutMessage;
    forall i | 0 <= i && i + 5 <= |t| ensures t[i] != 'd' || t[i + 2] != 'l' { }
    forall i | 0 <= i <= |t| ensures !OccursAt(t, "délai", i) {
      if i + 5 <= |t| {
        assert t[i..i + 5][0] == t[i] && t[i..i + 5][2] == t[i + 2];
      }
    }
  }

  /** As written, the timeout error is not turned into the advice: its text passes through verbatim. */
  lemma {:induction false} TimeoutPassesThrough()
    ensures ErrorMessage(ErrorValue(TimeoutMessage)) == TimeoutMessage
    ensures ErrorMessage(ErrorValue(TimeoutMessage)) != TimeoutAdvice
  {
    TimeoutLacksLowercaseDelai();
    assert |TimeoutMessage| != |TimeoutAdvice|;
  }

  /** The error text of the catch block as intended: "délai" in either case marks a timeout. */
  function IntendedErrorMessage(e: Thrown): (m: string)
    ensures e.OtherValue? ==> m == UnknownError
    ensures e.ErrorValue? && (Contains(e.message, "délai") || Contains(e.message, "Délai")) ==> m == TimeoutAdvice
    ensures e.ErrorValue? && !Contains(e.message, "délai") && !Contains(e.message, "Délai") ==> m == e.message
  {
    match e
    case OtherValue => UnknownError
    case ErrorValue(msg) => if Contains(msg, "délai") || Contains(msg, "Délai") then TimeoutAdvice else msg
  }

  /** With the intended test the timeout error becomes the advice to simplify the question. */
  lemma {:induction false} IntendedTimeoutAdvice()
    ensures IntendedErrorMessage(ErrorValue(TimeoutMessage)) == TimeoutAdvice
  {
    assert OccursAt(TimeoutMessage, "Délai", 0);
  }

  /** The two mappings differ only on errors whose message has "Délai" but no "délai". */
  lemma {:induction false} IntendedAgreesElsewhere(e: Thrown)
    requires e.OtherValue? || !Contains(e.message, "Délai") || Contains(e.message, "délai")
    ensures IntendedErrorMessage(e) == ErrorMessage(e)
  {
  }

  // ---------------------------------------------------------------------
  // The request handler
  // ---------------------------------------------------------------------

  /** The JSON body of a chat request; `enableCrossValidation` defaults to false. */
  datatype ChatBody = ChatBody(
    messages: seq<InMessage>,
    mode: string,
    enableCrossValidation: bool,
    systemOverride: Option<string>)

  /** The request posted to the primary provider (model google/gemini-3-flash-preview, stream: true). */
  datatype PrimaryCall = PrimaryCall(apiKey: string, messages: seq<ApiMessage>)

  /** Which reading of lines 154 and 368 the handler follows: the source's, or the intended one. */
  datatype Reading = AsWritten | Intended

  function ScopeFor(reading: Reading, body: ChatBody): OverrideScope {
    if reading == AsWritten then Unbound else Bound(body.systemOverride)
  }

  function MapError(reading: Reading, e: Thrown): string {
    if reading == AsWritten then ErrorMessage(e) else IntendedErrorMessage(e)
  }

  /**
   * What `chatPromise` settles to: a non-empty cross-validated answer is
   * framed as a one-event stream without calling the primary provider;
   * otherwise a missing key throws, and the primary provider's reply or
   * failure decides.
   */
  function ChatOutcome(reading: Reading, body: ChatBody, env: string -> Option<string>,
                       fetch: ProviderCall -> ProviderReply, primary: PrimaryCall -> Result<Upstream, Thrown>,
                       stringify: string -> string): (r: Result<Response, Thrown>)
    ensures var validated := if body.mode == "medicine" && body.enableCrossValidation
                             then CrossValidated(ScopeFor(reading, body), body.messages, body.mode, env, fetch) else "";
            && (validated != "" ==> r == Ok(EventStream(SseFrame(stringify, validated))))
            && (validated == "" && (env("LOVABLE_API_KEY").None? || env("LOVABLE_API_KEY").value == "") ==>
                  r == Err(ErrorValue(MissingKeyMessage)))
    ensures r.Ok? ==> !r.value.Preflight?
    ensures r.Ok? && r.value.JsonError? ==> r.value.status in {429, 402, 500}
  {
    var validated := if body.mode == "medicine" && body.enableCrossValidation
                     then CrossValidated(ScopeFor(reading, body), body.messages, body.mode, env, fetch) else "";
    if validated != "" then Ok(EventStream(SseFrame(stringify, validated)))
    else
      var key := env("LOVABLE_API_KEY");
      if key.None? || key.value == "" then Err(ErrorValue(MissingKeyMessage))
      else
        var prompt := SelectPrompt(body.systemOverride, body.mode);
        match primary(PrimaryCall(key.value, BuildApiMessages(prompt, body.messages)))
        case Err(e) => Err(e)
        case Ok(u) => Ok(UpstreamResponse(u))
  }

  /**
   * The handler. `body` is what `req.json()` gave (or threw); `timedOut`
   * says that the 7500 ms timer fired before the chat promise settled.
   */
  function Handle(reading: Reading, isOptions: bool, body: Result<ChatBody, Thrown>, timedOut: bool,
                  env: string -> Option<string>, fetch: ProviderCall -> ProviderReply,
                  primary: PrimaryCall -> Result<Upstream, Thrown>, stringify: string -> string): (r: Response)
    ensures isOptions ==> r == Preflight
    ensures !isOptions && body.Ok? && timedOut ==> r == JsonError(500, MapError(reading, ErrorValue(TimeoutMessage)))
    ensures !isOptions && body.Err? ==> r == JsonError(500, MapError(reading, body.error))
    ensures !isOptions && body.Ok? && !timedOut ==>
              var o := ChatOutcome(reading, body.value, env, fetch, primary, stringify);
              r == if o.Ok? then o.value else JsonError(500, MapError(reading, o.error))
    ensures r.JsonError? ==> r.status in {429, 402, 500}
  {
    if isOptions then Preflight
    else match body
      case Err(e) => JsonError(500, MapError(reading, e))
      case Ok(b) =>
        if timedOut then JsonError(500, MapError(reading, ErrorValue(TimeoutMessage)))
        else match ChatOutcome(reading, b, env, fetch, primary, stringify)
          case Ok(resp) => resp
          case Err(e) => JsonError(500, MapError(reading, e))
  }

  /** A text lacking one character of `t` cannot contain `t`. */
  lemma {:induction false} LacksCharLacks(s: string, t: string, j: nat)
    requires j < |t| && forall k | 0 <= k < |s| :: s[k] != t[j]
    ensures !Contains(s, t)
  {
    forall i | 0 <= i <= |s| ensures !OccursAt(s, t, i) {
      if i + |t| <= |s| {
        assert s[i..i + |t|][j] == s[i + j];
      }
    }
  }

  /** The missing-key error has no accented letter, so both readings report it verbatim. */
  lemma {:induction false} MissingKeyPassesThrough(reading: Reading)
    ensures MapError(reading, ErrorValue(MissingKeyMessage)) == MissingKeyMessage
  {
    assert forall k | 0 <= k < |MissingKeyMessage| :: MissingKeyMessage[k] as int < 128;
    LacksCharLacks(MissingKeyMessage, "délai", 1);
    LacksCharLacks(MissingKeyMessage, "Délai", 1);
  }

  /**
   * Without a usable gateway key, and with no cross-validated answer to send
   * (always so as written, and whenever cross-validation is not asked for),
   * the request is answered with a 500 carrying the missing-key message.
   */
  lemma {:induction false} HandleMissingKey(reading: Reading, body: ChatBody, env: string -> Option<string>,
                                            fetch: ProviderCall -> ProviderReply,
                                            primary: PrimaryCall -> Result<Upstream, Thrown>, stringify: string -> string)
    requires env("LOVABLE_API_KEY").None? || env("LOVABLE_API_KEY").value == ""
    requires reading == AsWritten || !(body.mode == "medicine" && body.enableCrossValidation)
    ensures Handle(reading, false, Ok(body), false, env, fetch, primary, stringify) == JsonError(500, MissingKeyMessage)
  {
    if reading == AsWritten {
      CrossValidationNeverAnswers(body.messages, body.mode, env, fetch);
    }
    MissingKeyPassesThrough(reading);
  }

  /** As written, a timed-out request answers with the raw timeout text, not the advice. */
  lemma {:induction false} HandleTimeoutAsWritten(body: ChatBody, env: string -> Option<string>, fetch: ProviderCall -> ProviderReply,
                               primary: PrimaryCall -> Result<Upstream, Thrown>, stringify: string -> string)
    ensures Handle(AsWritten, false, Ok(body), true, env, fetch, primary, stringify) == JsonError(500, TimeoutMessage)
  {
    TimeoutPassesThrough();
  }

  /** Read as intended, a timed-out request answers with the advice to simplify the question. */
  lemma {:induction false} HandleTimeoutIntended(body: ChatBody, env: string -> Option<string>, fetch: ProviderCall -> ProviderReply,
                              primary: PrimaryCall -> Result<Upstream, Thrown>, stringify: string -> string)
    ensures Handle(Intended, false, Ok(body), true, env, fetch, primary, stringify) == JsonError(500, TimeoutAdvice)
  {
    IntendedTimeoutAdvice();
  }

  /**
   * As written, the handler never answers with a cross-validated frame: the
   * answer always comes from the primary provider (or is an error).
   */
  lemma {:induction false} HandleAsWrittenUsesPrimary(body: ChatBody, env: string -> Option<string>, fetch: ProviderCall -> ProviderReply,
                                   primary: PrimaryCall -> Result<Upstream, Thrown>, stringify: string -> string)
    requires env("LOVABLE_API_KEY").Some? && env("LOVABLE_API_KEY").value != ""
    ensures var call := PrimaryCall(env("LOVABLE_API_KEY").value,
                                    BuildApiMessages(SelectPrompt(body.systemOverride, body.mode), body.messages));
            ChatOutcome(AsWritten, body, env, fetch, primary, stringify) ==
              match primary(call)
              case Err(e) => Err(e)
              case Ok(u) => Ok(UpstreamResponse(u))
  {
    CrossValidationNeverAnswers(body.messages, body.mode, env, fetch);
  }

  /**
   * Read as intended, a medicine request with cross-validation on and some
   * provider answering is answered with exactly one frame carrying that
   * answer, and the primary provider is not asked.
   */
  lemma {:induction false} HandleIntendedCrossValidates(body: ChatBody, env: string -> Option<string>, fetch: ProviderCall -> ProviderReply,
                                     primary: PrimaryCall -> Result<Upstream, Thrown>, stringify: string -> string, i: nat)
    requires body.mode == "medicine" && body.enableCrossValidation
    requires i < |Providers|
    requires AnswerOf(Providers[i], Bound(body.systemOverride), body.messages, body.mode, env, fetch).Some?
    requires forall k :: 0 <= k < i ==> AnswerOf(Providers[k], Bound(body.systemOverride), body.messages, body.mode, env, fetch).None?
    ensures ChatOutcome(Intended, body, env, fetch, primary, stringify) ==
              Ok(EventStream(SseFrame(stringify, AnswerOf(Providers[i], Bound(body.systemOverride), body.messages, body.mode, env, fetch).value)))
  {
    CrossValidationFirstAnswer(body.systemOverride, body.messages, body.mode, env, fetch, i);
  }
}
