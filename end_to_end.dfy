/**
 * What the browser client (useChat.ts) and the edge function (index.ts)
 * guarantee together: the request the client builds always carries the
 * concise override, its first image reaches the primary provider, a
 * cross-validated answer framed by the edge function arrives intact
 * however the stream is cut into chunks, and each error response becomes
 * the notice the user sees.
 */
module EndToEnd {
  import opened Js
  import S = StreamClient
  import E = EdgeRouter

  /** The wire name of a role. */
  function RoleName(r: S.Role): string {
    match r
    case User => "user"
    case Assistant => "assistant"
  }

  /**
   * A client message as the edge function reads it from the JSON body: the
   * role arrives as "user" exactly for user messages, the content unchanged,
   * and no image exactly when the client sent none or an empty one.
   */
  function Received(w: S.WireMessage): (m: E.InMessage)
    ensures m.role == "user" <==> w.role == S.User
    ensures m.content == w.content
    ensures m.imageBase64 == "" <==> w.imageBase64 == None || w.imageBase64 == Some("")
    ensures m.imageBase64 != "" ==> w.imageBase64 == Some(m.imageBase64)
  {
    E.InMessage(RoleName(w.role), w.content, if w.imageBase64.Some? then w.imageBase64.value else "")
  }

  /** The body the edge function reads from a client request. */
  function ReceivedBody(r: S.ChatRequest): (b: E.ChatBody)
    ensures |b.messages| == |r.messages|
    ensures forall i :: 0 <= i < |r.messages| ==> b.messages[i] == Received(r.messages[i])
    ensures b.mode == "medicine" <==> r.mode == S.Medicine
    ensures b.mode == "informatique" <==> r.mode == S.Informatique
    ensures b.enableCrossValidation == r.enableCrossValidation
    ensures b.systemOverride == Some(r.systemOverride)
  {
    E.ChatBody(seq(|r.messages|, i requires 0 <= i < |r.messages| => Received(r.messages[i])),
               S.ModeName(r.mode), r.enableCrossValidation, Some(r.systemOverride))
  }

  /**
   * The client's override is never empty, so it wins over the built-in
   * prompt of either mode.
   */
  lemma {:induction false} OverrideAlwaysWins(history: seq<S.Message>, mode: S.Mode)
    ensures var b := ReceivedBody(S.BuildRequest(history, mode));
            E.SelectPrompt(b.systemOverride, b.mode) == E.Override(S.ConciseOverride)
  {
    assert |S.ConciseOverride| > 0;
  }

  /** The edge function cross-validates exactly the requests the client sends in medicine mode. */
  lemma {:induction false} CrossValidationRequestedInMedicine(history: seq<S.Message>, mode: S.Mode)
    ensures var b := ReceivedBody(S.BuildRequest(history, mode));
            (b.mode == "medicine" && b.enableCrossValidation) <==> mode == S.Medicine
  {
  }

  /**
   * The first image of a user message reaches the primary provider as the
   * message's last part, after its text when there is text; any further
   * image is not sent.
   */
  lemma {:induction false} FirstImageReachesProvider(history: seq<S.Message>, mode: S.Mode, i: nat)
    requires i < |history|
    requires history[i].role == S.User && |history[i].images| > 0 && history[i].images[0] != ""
    ensures var b := ReceivedBody(S.BuildRequest(history, mode));
            var api := E.BuildApiMessages(E.SelectPrompt(b.systemOverride, b.mode), b.messages);
            api[i + 1] == E.PartsMessage((if history[i].content != "" then [E.TextPart(history[i].content)] else [])
                                         + [E.ImageUrlPart(history[i].images[0])])
  {
  }

  /** A message without images reaches the primary provider as plain text under its role. */
  lemma {:induction false} TextMessageReachesProvider(history: seq<S.Message>, mode: S.Mode, i: nat)
    requires i < |history| && |history[i].images| == 0
    ensures var b := ReceivedBody(S.BuildRequest(history, mode));
            var api := E.BuildApiMessages(E.SelectPrompt(b.systemOverride, b.mode), b.messages);
            api[i + 1] == E.TextMessage(RoleName(history[i].role), history[i].content)
  {
    var r := S.BuildRequest(history, mode);
    var b := ReceivedBody(r);
    assert r.messages[i].imageBase64 == None;
    assert b.messages[i] == E.InMessage(RoleName(history[i].role), history[i].content, "");
  }

  /**
   * What JSON.stringify and JSON.parse promise about the frame's envelope
   * for one content: one line, no surrounding whitespace, not the `[DONE]`
   * sentinel, and parsing it gives back the content as the delta.
   */
  predicate EnvelopeRoundTrips(stringify: string -> string, parse: string -> S.Parsed, content: string) {
    var x := stringify(content);
    '\n' !in x && Trim(x) == x && x != S.DoneSentinel && parse(x) == S.Json(content)
  }

  lemma {:induction false} FrameLines(stringify: string -> string, parse: string -> S.Parsed, content: string)
    requires EnvelopeRoundTrips(stringify, parse, content)
    ensures var lines := [S.DataPrefix + stringify(content), ""];
            && S.Render(lines) == E.SseFrame(stringify, content)
            && S.WellFormed(lines, parse)
            && S.LineDeltas(lines, parse) == S.Emitted(content)
  {
    var x := stringify(content);
    var line := S.DataPrefix + x;
    var lines := [line, ""];
    assert lines[1..] == [""];
    assert S.Render([""]) == "\n" by {
      assert [""][1..] == [];
    }
    assert S.Render(lines) == E.SseFrame(stringify, content);
    assert '\n' !in line by {
      assert forall k :: 0 <= k < |line| ==> line[k] == (if k < |S.DataPrefix| then S.DataPrefix[k] else x[k - |S.DataPrefix|]);
    }
    assert S.StripCR(line) == line by {
      if |x| > 0 {
        assert line[|line| - 1] == x[|x| - 1];
        assert !IsSpace(x[|x| - 1]);
      } else {
        assert line[|line| - 1] == ' ';
      }
    }
    assert line[|S.DataPrefix|..] == x;
    assert S.Classify(S.StripCR(line), parse) == S.Delta(content);
    assert S.Classify(S.StripCR(""), parse) == S.NotData;
  }

  /**
   * A cross-validated answer framed by the edge function reaches the user
   * intact however the network cuts the frame into chunks: the turn
   * upserts exactly that answer, and the transcript gains one assistant
   * message holding it.
   */
  lemma {:induction false} CrossValidatedFrameReachesUser(stringify: string -> string, parse: string -> S.Parsed, content: string,
                                       chunks: seq<string>, history: seq<S.Message>)
    requires content != ""
    requires EnvelopeRoundTrips(stringify, parse, content)
    requires Concat(chunks) == E.SseFrame(stringify, content)
    ensures S.TurnUpserts(S.Streamed(chunks, false), parse) == [content]
    ensures S.Transcript(history, S.TurnUpserts(S.Streamed(chunks, false), parse)) == history + [S.AssistantMessage(content)]
  {
    FrameDrains(stringify, parse, content, chunks);
    assert S.TurnUpserts(S.Streamed(chunks, false), parse) == S.Drain("", chunks, parse).deltas + [];
    assert [content][1..] == [];
    assert Concat([content]) == content;
  }

  /** However the frame is chunked, draining it yields exactly the answer. */
  lemma {:induction false} FrameDrains(stringify: string -> string, parse: string -> S.Parsed, content: string, chunks: seq<string>)
    requires content != ""
    requires EnvelopeRoundTrips(stringify, parse, content)
    requires Concat(chunks) == E.SseFrame(stringify, content)
    ensures S.Drain("", chunks, parse).deltas == [content]
  {
    var lines := [S.DataPrefix + stringify(content), ""];
    FrameLines(stringify, parse, content);
    assert Concat(chunks) == S.Render(lines) + "";
    S.ChunkingInvariance(lines, "", chunks, parse);
  }

  /** The JSON error body the client reads from an edge error response. */
  function ClientErrorBody(r: E.Response): S.ErrorBody
    requires r.JsonError?
  {
    S.ErrorJson(r.error)
  }

  /**
   * Any error response of the edge function reaches the user as one warning
   * notice: the edge function's message when it has one, otherwise the
   * generic service error.
   */
  lemma {:induction false} EdgeErrorReachesUser(r: E.Response, parse: string -> S.Parsed)
    requires r.JsonError?
    ensures r.error != "" ==> S.TurnUpserts(S.NotOk(ClientErrorBody(r)), parse) == ["⚠️ " + r.error]
    ensures r.error == "" ==> S.TurnUpserts(S.NotOk(ClientErrorBody(r)), parse) == ["⚠️ Erreur du service"]
  {
  }

  /**
   * A refused upstream call reaches the user as a single warning notice
   * carrying the edge function's message for that status.
   */
  lemma {:induction false} UpstreamRefusalNotice(u: E.Upstream, parse: string -> S.Parsed)
    requires !E.IsOk(u.status)
    ensures var n := S.TurnUpserts(S.NotOk(ClientErrorBody(E.UpstreamResponse(u))), parse);
            && (u.status == 429 ==> n == ["⚠️ " + E.RateLimitMessage])
            && (u.status == 402 ==> n == ["⚠️ " + E.CreditsMessage])
            && (u.status != 429 && u.status != 402 ==> n == ["⚠️ " + E.ServiceErrorMessage])
  {
  }

  /**
   * As written, a timed-out request shows the user the raw timeout text
   * rather than the advice to simplify the question.
   */
  lemma {:induction false} TimeoutNoticeAsWritten(body: E.ChatBody, env: string -> Option<string>,
                               fetch: E.ProviderCall -> E.ProviderReply,
                               primary: E.PrimaryCall -> Result<E.Upstream, E.Thrown>,
                               stringify: string -> string, parse: string -> S.Parsed)
    ensures var r := E.Handle(E.AsWritten, false, Ok(body), true, env, fetch, primary, stringify);
            r.JsonError? && S.TurnUpserts(S.NotOk(ClientErrorBody(r)), parse) == ["⚠️ " + E.TimeoutMessage]
  {
    E.HandleTimeoutAsWritten(body, env, fetch, primary, stringify);
  }
}
