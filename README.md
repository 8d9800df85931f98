# Genius AI chat core, modelled in Dafny

Genius AI is a chat PWA for medicine and computing questions. This project
models its core and proves properties of it:

- **the browser chat hook** (`src/hooks/useChat.ts`, module `StreamClient`).
  One turn appends the user's message and posts the whole history with a
  fixed "be concise" prompt override. It then rebuilds the assistant's
  answer from a server-sent-event stream cut into arbitrary chunks.
- **the edge function** (`supabase/functions/chat/index.ts`, module
  `EdgeRouter`). It chooses the system prompt and maps messages to the
  OpenAI-style and Gemini request formats. In medicine mode it
  cross-validates through up to four providers, each used only when its API
  key is configured. Otherwise it falls back to the primary gateway, maps
  upstream refusals to JSON errors and turns exceptions into error messages.
- **the OCR helper** (`src/lib/ocr.ts`, module `Ocr`): a lazily created
  singleton around one recognition worker. It numbers per-image results,
  detects multiple-choice (QCM) text and splits text into questions.
- **the main page's conversation store** (`src/pages/Index.tsx`, module
  `Conversations`): the conversation list, the messages saved per
  conversation and the active conversation.
- **the service worker** (`public/sw.js`, module `ServiceWorker`): request
  routing, cache-first, network-first and navigation strategies over an
  ordered cache store, and the removal of stale caches on activation.
- **the chat inputs' attachment trays** (module `AttachmentTray`):
  - the multi-image tray of `CenteredChatInput.tsx` and
    `FuturisticChatInput.tsx`, which have no OCR;
  - the same tray with OCR in `EnhancedChatInput.tsx`,
    `FloatingChatInput.tsx` and `UltraFloatingChatInput.tsx`;
  - the single image slot of `ChatInput.tsx`.

`EndToEnd` connects the client and the edge function. The request the
client builds always carries an override that wins over the built-in
prompts, and the request's first image reaches the primary provider. A
cross-validated answer framed by the edge function reaches the user intact
however the stream is chunked. Each error response becomes the warning
notice the user sees. `Js` holds the JavaScript string operations the rest
relies on (`trim`, `indexOf`, `includes`, decimal printing).

**Modelling choices:**
- **Outside effects are parameters.** JSON parsing and printing, the
  environment, `fetch`, Tesseract's `recognize`, `toLowerCase`,
  `crypto.randomUUID` and `URL.createObjectURL` are all passed in as
  parameters.
- **Network failures are values.** A network call that throws is `None`, or
  a `Thrown` value.
- **State-changing code is imperative.** Code that updates state in place
  becomes a class with `modifies` clauses: the chat hook, the page, the OCR
  service, the cache store and the trays.
- **Loops are methods with invariants.** Each is proved equal to the
  function that specifies it: the stream reader, the provider loop, the
  activation loop and the question splitter.
- **The edge handler has two readings.** `Handle` takes a reading: `AsWritten`
  follows the code line by line, and `Intended` uses the two corrections
  listed under Findings.
- **A bare terminator adds nothing.** A response that holds only the
  `[DONE]` terminator adds no assistant message: `upsert` is never called
  (`Transcript` with no upserts).

## Model

| member | source | states |
|---|---|---|
| Js.IndexOf | src/hooks/useChat.ts:106 | the result is -1 exactly when the character is absent, otherwise the index of its first occurrence |
| Js.Trim | src/hooks/useChat.ts:111 | the result is no longer than the input and neither starts nor ends with JavaScript whitespace |
| Js.TrimRemovesOnlySpace | src/hooks/useChat.ts:111 | the trimmed text is a middle slice of the input, and everything cut off on either side is whitespace |
| Js.TrimDropsTrailingSpace | src/hooks/useChat.ts:111 | a trailing whitespace character does not change the trimmed text |
| Js.ConcatAppend | src/hooks/useChat.ts:103 | appending chunks to the buffer in two batches gives the same text as in one |
| Js.NatToStringRoundTrip | src/lib/ocr.ts:70 | reading back the decimal text of a number gives the number |
| StreamClient.UserMessage | src/hooks/useChat.ts:24-49 | the user's message keeps the typed content (never the OCR text) and shows the first image as `imageUrl` exactly when there are images |
| StreamClient.EnhancedContent | src/hooks/useChat.ts:32-44 | without OCR results the content is unchanged; with them the typed content is kept as a prefix and the digest ends the result, and the result is the digest alone exactly when the content is empty |
| StreamClient.OcrDigestAppend | src/hooks/useChat.ts:32-44 | each further OCR result adds a blank line and then one section labelled with its own 1-based number |
| StreamClient.BuildRequest | src/hooks/useChat.ts:75-86 | one wire message per history entry with the same role, content and images, the first image as `imageBase64`; cross-validation asked exactly in medicine mode; the concise override always set |
| StreamClient.RequestIgnoresOcr | src/hooks/useChat.ts:32-86 | histories that differ only in OCR results produce the same request: the enhanced content never reaches the server |
| StreamClient.StripCR | src/hooks/useChat.ts:109 | the line is unchanged, or loses exactly one trailing carriage return |
| StreamClient.ClassifyStripCR | src/hooks/useChat.ts:109-112 | removing the carriage return never changes how a line is classified |
| StreamClient.ClassifyKinds | src/hooks/useChat.ts:109-119 | a line without `data: ` is skipped; a `[DONE]` payload ends the scan; a payload that does not parse is malformed; otherwise the line carries the parsed delta content |
| StreamClient.LineStep | src/hooks/useChat.ts:106-120 | one pass of the inner loop: when the loop goes on the buffer has shrunk; a pass that stops emits nothing; without a newline the loop stops and the buffer is kept whole |
| StreamClient.ScanBuffer | src/hooks/useChat.ts:105-121 | the inner loop emits only non-empty deltas, never grows the buffer, and leaves a buffer without a newline untouched |
| StreamClient.Drain | src/hooks/useChat.ts:96-122 | the read loop over all chunks emits only non-empty deltas |
| StreamClient.LineDeltasAppend | src/hooks/useChat.ts:110-116 | lines free of `[DONE]` and of unparsable payloads contribute their deltas whatever lines follow them |
| StreamClient.LineDeltasSplit | src/hooks/useChat.ts:110-116 | the deltas of well-formed lines are those of any prefix followed by those of the rest |
| StreamClient.ScanFirstLine | src/hooks/useChat.ts:106-120 | by the first line's kind: a non-data line is skipped; `[DONE]` stops the scan, keeping the rest of the buffer; an unparsable payload is put back and stops the scan; a delta is emitted when non-empty, then the scan goes on |
| StreamClient.ScanRendered | src/hooks/useChat.ts:105-121 | scanning complete well-formed lines plus an unterminated tail emits the lines' deltas and keeps the tail |
| StreamClient.DrainWellFormed | src/hooks/useChat.ts:96-122 | for any split of well-formed lines between the buffer and the chunks still to come, the reader emits the lines' deltas and ends with the tail |
| StreamClient.ChunkingInvariance | src/hooks/useChat.ts:96-122 | however the stream is cut into chunks, the reader emits exactly the deltas of its complete lines, and the final unterminated line remains in the buffer |
| StreamClient.UnterminatedTailDropped | src/hooks/useChat.ts:100-122 | a last delta line without a newline is never emitted, though it would be if terminated |
| StreamClient.MalformedBlocks | src/hooks/useChat.ts:117-120 | once an unparsable data line is at the head of the buffer, no later chunk emits anything |
| StreamClient.DoneEndsOnlyCurrentChunk | src/hooks/useChat.ts:112 | `[DONE]` only ends the current chunk's scan: reading resumes after it with the next chunk |
| StreamClient.Upserted | src/hooks/useChat.ts:55-66 | a trailing assistant message gets the accumulated text; otherwise an assistant message with it is appended; earlier messages are untouched |
| StreamClient.UpsertStep | src/hooks/useChat.ts:55-66 | each upsert moves the transcript from n chunks to n+1 chunks of the accumulated answer |
| StreamClient.Transcript | src/hooks/useChat.ts:55-66 | a turn keeps the earlier messages as they were; without upserts it adds nothing, otherwise it adds exactly one assistant message holding all the upserts joined |
| StreamClient.ErrorNotice | src/hooks/useChat.ts:89-91 | every notice starts with the warning sign; a body that is not JSON gives "Erreur réseau", an error field that is missing or empty gives "Erreur du service", and any other error field is shown after the sign |
| StreamClient.TurnUpserts | src/hooks/useChat.ts:68-126 | the upserts of a turn are never empty strings |
| StreamClient.ChatHook.constructor | src/hooks/useChat.ts:17-18 | no messages and not loading |
| StreamClient.ChatHook.SetMessages | src/hooks/useChat.ts:137 | the messages are replaced and loading is unchanged |
| StreamClient.ChatHook.Reset | src/hooks/useChat.ts:133-135 | the messages are emptied |
| StreamClient.ChatHook.Send | src/hooks/useChat.ts:20-129 | the request is built from the history plus the user message; the messages become that history plus one assistant message accumulating every upsert of the reply; loading ends |
| StreamClient.ChatHook.ScanLines | src/hooks/useChat.ts:105-121 | the imperative inner loop emits what `ScanBuffer` specifies and keeps the transcript in step with the accumulated text |
| StreamClient.ChatHook.NextLine | src/hooks/useChat.ts:106-120 | one pass of the imperative loop does what `LineStep` specifies and upserts the delta it emits |
| StreamClient.ChatHook.Upsert | src/hooks/useChat.ts:55-66 | one upsert appends the chunk to the accumulated text and updates the transcript to match |
| Ocr.QuestionLabelInjective | src/lib/ocr.ts:70 | different images get different `Question n:` labels |
| Ocr.Numbered | src/lib/ocr.ts:65-79 | every result starts with its image's label |
| Ocr.NumberedResults | src/lib/ocr.ts:62-82 | one result per image, in order, each numbered after recognition or its failure |
| Ocr.NumberedResultsMeaning | src/lib/ocr.ts:62-82 | a recognised image keeps its text and confidence behind its label; a failed one gets the placeholder with confidence 0; two images never share a label |
| Ocr.OcrService.constructor | src/lib/ocr.ts:20 | no worker yet |
| Ocr.OcrService.InitializeWorker | src/lib/ocr.ts:29-39 | an existing worker is kept; without one, a successful creation stores a new worker, while a rejected creation is reported and leaves no worker |
| Ocr.OcrService.ExtractTextFromImage | src/lib/ocr.ts:41-60 | a rejected worker creation propagates as the error; otherwise the recognised text and confidence, or the single extraction error message, and a worker exists afterwards |
| Ocr.OcrService.ExtractTextFromMultipleImages | src/lib/ocr.ts:62-82 | returns exactly the numbered results, one per image and failures included, recognising with the worker when one exists or can be created and failing each image otherwise; at most one worker is created |
| Ocr.OcrService.Cleanup | src/lib/ocr.ts:128-133 | the worker, if any, is terminated and forgotten |
| Ocr.OcrServiceSlot.GetInstance | src/lib/ocr.ts:22-27 | the first call creates the service; later calls return that same service |
| Ocr.DigitRunIsDigits | src/lib/ocr.ts:88 | a `\d+` run spans only digits |
| Ocr.SpaceRunIsSpaces | src/lib/ocr.ts:86-90 | a `\s*` or `\s+` run spans only whitespace |
| Ocr.DetectQcmFormatExtend | src/lib/ocr.ts:84-95 | text that looks like a QCM still does after more text is appended |
| Ocr.DetectQcmFormat | src/lib/ocr.ts:84-95 | a text detected as a QCM contains an option letter A-D or a Q, up to case |
| Ocr.OptionMarkDetected | src/lib/ocr.ts:86-88 | an option letter at the start of a word followed by `)`, `.` or `-` is always detected |
| Ocr.DelimiterEnd | src/lib/ocr.ts:101-106 | a delimiter match at a position is never empty and stays inside the text |
| Ocr.SplitFromEnds | src/lib/ocr.ts:113 | the pieces from a position start with a prefix of the rest of the text and end with a suffix of the text |
| Ocr.Split | src/lib/ocr.ts:113 | at least one piece; the first piece is a prefix and the last a suffix of the text |
| Ocr.SplitNoMatch | src/lib/ocr.ts:113 | splitting by a delimiter that never occurs gives the whole text |
| Ocr.SplitFirstMatch | src/lib/ocr.ts:113 | with a match, the first piece is the text before the first match and there are at least two pieces |
| Ocr.SplitPartDropsLead | src/lib/ocr.ts:113-117 | a part containing a delimiter loses the text before the first match and becomes the trimmed pieces after it |
| Ocr.TrimAll | src/lib/ocr.ts:117 | each piece is trimmed and the order is kept |
| Ocr.KeepLong | src/lib/ocr.ts:125 | exactly the parts longer than ten UTF-16 code units are kept |
| Ocr.KeepLongAppend | src/lib/ocr.ts:125 | the filter keeps the order and the repetitions of what it keeps |
| Ocr.QuestionsWithoutDelimiter | src/lib/ocr.ts:97-126 | a text with no delimiter is one question when longer than ten UTF-16 code units, none otherwise |
| Ocr.Questions | src/lib/ocr.ts:97-126 | a text is a question exactly when it is a part left by the four delimiter passes and is longer than ten UTF-16 code units |
| Ocr.ExtractQuestions | src/lib/ocr.ts:97-126 | the loop returns the parts after splitting by the four delimiters in turn, exactly those longer than ten UTF-16 code units, in order |
| EdgeRouter.SelectPrompt | supabase/functions/chat/index.ts:278 | a non-empty override wins; otherwise the informatique prompt exactly for mode "informatique", the medicine prompt for any other mode |
| EdgeRouter.PromptWithoutOverride | supabase/functions/chat/index.ts:278 | a missing or empty override is the same as none, and falls back to the medicine prompt |
| EdgeRouter.ToApiMessage | supabase/functions/chat/index.ts:283-294 | exactly a user message with an image becomes a parts message, ending with the image URL and starting with the text when there is text; every other message keeps its role and content as text |
| EdgeRouter.ApiMessageRoundTrip | supabase/functions/chat/index.ts:283-294 | mapping a message to the provider format loses nothing unless an image is attached to a non-user message |
| EdgeRouter.ApiMessageDropsForeignImage | supabase/functions/chat/index.ts:284 | an image attached to a non-user message is dropped |
| EdgeRouter.BuildApiMessages | supabase/functions/chat/index.ts:281-295 | the system prompt first, then each message mapped in order |
| EdgeRouter.DataField | supabase/functions/chat/index.ts:169 | there is no payload exactly when the data URI has no comma; a payload never contains a comma |
| EdgeRouter.DataFieldOfDataUri | supabase/functions/chat/index.ts:169 | the payload of `header,payload` is the payload |
| EdgeRouter.ToGeminiMessage | supabase/functions/chat/index.ts:162-175 | the role is kept; a message without a user image becomes one text part with the content; a user image becomes a final inline JPEG part with the data URI payload, preceded by the text exactly when there is text |
| EdgeRouter.GeminiImagePart | supabase/functions/chat/index.ts:163-172 | a user image becomes a final inline JPEG part carrying the data URI's payload, preceded by the text exactly when there is text |
| EdgeRouter.GeminiContents | supabase/functions/chat/index.ts:161-176 | one Gemini message per message, in order |
| EdgeRouter.AnswerOf | supabase/functions/chat/index.ts:149-255 | a provider answers only with non-empty text, and only after a call was made with its key |
| EdgeRouter.AnswersFor | supabase/functions/chat/index.ts:148-256 | every collected answer is non-empty |
| EdgeRouter.CrossValidated | supabase/functions/chat/index.ts:144-260 | the result is empty exactly when no answer is collected, and otherwise it is the first answer collected |
| EdgeRouter.CrossValidateResponse | supabase/functions/chat/index.ts:144-260 | the loop returns the cross-validated answer and makes exactly the calls `CallsFor` lists, skipping keyless providers |
| EdgeRouter.UnboundMakesNoCall | supabase/functions/chat/index.ts:154 | with the override out of scope, every keyed provider throws before its call: no call, no answer |
| EdgeRouter.CrossValidationNeverAnswers | supabase/functions/chat/index.ts:154 | as written, cross-validation always returns "" and calls no provider |
| EdgeRouter.AnswersEmptyIff | supabase/functions/chat/index.ts:251-259 | no answer is collected exactly when no provider answers |
| EdgeRouter.AnswersFirst | supabase/functions/chat/index.ts:251-259 | the first collected answer is the first provider's answer in provider order |
| EdgeRouter.CrossValidationFirstAnswer | supabase/functions/chat/index.ts:144-260 | with the override in scope, the result is the answer of the first provider, in order, that answers |
| EdgeRouter.CrossValidationEmpty | supabase/functions/chat/index.ts:259 | with the override in scope, the result is empty exactly when no provider answers |
| EdgeRouter.ValidateMedicalSources | supabase/functions/chat/index.ts:118-141 | the sources whose keywords occur in the lower-cased query, in the fixed order; the default source when none occur; the fallback source when the query cannot be read |
| EdgeRouter.SseFrame | supabase/functions/chat/index.ts:305 | the frame is a `data: ` line ended by a blank line |
| EdgeRouter.UpstreamResponse | supabase/functions/chat/index.ts:327-350 | an OK upstream is streamed through unchanged; 429 and 402 keep their status; any other failure becomes 500 |
| EdgeRouter.ErrorMessage | supabase/functions/chat/index.ts:366-373 | a non-Error value gives "Erreur inconnue"; an Error whose message contains lower-case "délai" gives the advice to simplify the question; any other Error passes its message through |
| EdgeRouter.TimeoutLacksLowercaseDelai | supabase/functions/chat/index.ts:274 | the timeout's own message does not contain lower-case "délai", so the check at line 368 never matches it |
| EdgeRouter.TimeoutPassesThrough | supabase/functions/chat/index.ts:368 | as written, the timeout error is reported raw instead of as the advice to simplify the question |
| EdgeRouter.IntendedErrorMessage | supabase/functions/chat/index.ts:366-373 | the corrected mapping keeps "Erreur inconnue" for non-Error values, gives the advice for an Error whose message contains "délai" or "Délai", and passes any other Error message through |
| EdgeRouter.IntendedTimeoutAdvice | supabase/functions/chat/index.ts:369 | corrected, the timeout error becomes the advice to simplify the question |
| EdgeRouter.IntendedAgreesElsewhere | supabase/functions/chat/index.ts:366-373 | the correction changes nothing for non-Error values, for messages without "Délai" and for messages that already contain "délai" |
| EdgeRouter.Handle | supabase/functions/chat/index.ts:262-383 | a preflight gets the CORS reply; an unreadable body, a timeout or a thrown chat outcome gives a 500 whose error is the mapped message; a settled chat outcome is returned unchanged; every error status is 429, 402 or 500 |
| EdgeRouter.MissingKeyPassesThrough | supabase/functions/chat/index.ts:313 | the missing-key error has no "délai" in either case, so both readings report its text verbatim |
| EdgeRouter.HandleMissingKey | supabase/functions/chat/index.ts:312-313 | without a usable gateway key, and with no cross-validated answer (always so as written), the request is answered 500 "LOVABLE_API_KEY is not configured" |
| EdgeRouter.HandleTimeoutAsWritten | supabase/functions/chat/index.ts:354-381 | as written, a timed-out request answers 500 with the raw timeout text |
| EdgeRouter.HandleTimeoutIntended | supabase/functions/chat/index.ts:354-381 | corrected, a timed-out request answers 500 with the advice |
| EdgeRouter.HandleAsWrittenUsesPrimary | supabase/functions/chat/index.ts:298-351 | as written, every request with the gateway key goes to the primary provider with the mapped messages, whatever the mode |
| EdgeRouter.HandleIntendedCrossValidates | supabase/functions/chat/index.ts:301-308 | corrected, a medicine request with cross-validation is answered with one frame holding the first provider answer |
| EdgeRouter.ChatOutcome | supabase/functions/chat/index.ts:298-351 | a non-empty cross-validated answer is sent as one event-stream frame; otherwise a missing or empty gateway key throws the missing-key error; an answer is never the preflight reply, and every error status is 429, 402 or 500 |
| EndToEnd.Received | supabase/functions/chat/index.ts:270 | the role is "user" exactly when the client sent a user message, the content is the same, and the image is the first image sent, or empty when none was sent |
| EndToEnd.ReceivedBody | src/hooks/useChat.ts:75-86 | each message the edge function reads is the one sent in the same place; mode "medicine" or "informatique" exactly for that client mode; the cross-validation flag is the one sent, and the override is always present |
| EndToEnd.OverrideAlwaysWins | src/hooks/useChat.ts:85 | the client's override is never empty, so the edge function always uses it instead of a built-in prompt |
| EndToEnd.CrossValidationRequestedInMedicine | src/hooks/useChat.ts:84 | the edge function's cross-validation branch is taken exactly for requests sent in medicine mode |
| EndToEnd.FirstImageReachesProvider | supabase/functions/chat/index.ts:284-291 | a user message's first image reaches the primary provider as its last part, after the text when there is text |
| EndToEnd.TextMessageReachesProvider | supabase/functions/chat/index.ts:293 | a message without images reaches the primary provider as plain text under its role |
| EndToEnd.FrameLines | supabase/functions/chat/index.ts:305 | the edge frame is one well-formed data line and a blank line, whose deltas are the answer |
| EndToEnd.FrameDrains | src/hooks/useChat.ts:96-122 | however the frame is chunked, the client reads exactly the answer |
| EndToEnd.CrossValidatedFrameReachesUser | supabase/functions/chat/index.ts:305 | a cross-validated answer arrives as exactly one upsert, and the transcript gains one assistant message holding it |
| EndToEnd.EdgeErrorReachesUser | src/hooks/useChat.ts:89-91 | an error response from the edge function shows the user one notice: its error message after the warning sign, or "Erreur du service" when the message is empty |
| EndToEnd.UpstreamRefusalNotice | supabase/functions/chat/index.ts:327-345 | a refused upstream call shows the user one warning notice, with the rate-limit, credits or service message for its status |
| EndToEnd.TimeoutNoticeAsWritten | supabase/functions/chat/index.ts:368-371 | as written, a timed-out request shows the raw timeout text, not the advice |
| Conversations.Title | src/pages/Index.tsx:55 | the first 40 characters of the content, or "Image" when it is empty |
| Conversations.FirstUser | src/pages/Index.tsx:36 | none exactly when no message is from the user; otherwise the first user message |
| Conversations.Retitled | src/pages/Index.tsx:38-44 | only the conversation with the id gets the new title and mode; the length and the others are unchanged |
| Conversations.Removed | src/pages/Index.tsx:86 | a conversation is kept exactly when its id differs |
| Conversations.RemovedAppend | src/pages/Index.tsx:86 | removal keeps the remaining conversations in order |
| Conversations.RemovedAbsent | src/pages/Index.tsx:86 | removing an absent id changes nothing |
| Conversations.RemovedKeepsUnique | src/pages/Index.tsx:86 | removal keeps the ids unique |
| Conversations.RetitledKeepsUnique | src/pages/Index.tsx:38-44 | retitling keeps the ids unique |
| Conversations.IndexPage.constructor | src/pages/Index.tsx:16-22 | medicine mode, no conversations, nothing active or saved, an empty chat |
| Conversations.IndexPage.HandleSend | src/pages/Index.tsx:49-64 | without an active conversation a new one, titled after the content, is put first and made active; the message is then sent; a fresh id keeps the ids unique |
| Conversations.IndexPage.SaveEffect | src/pages/Index.tsx:29-47 | with an active conversation and messages, the messages and the mode are saved under its id, and it is retitled after the first user message |
| Conversations.IndexPage.SelectConversation | src/pages/Index.tsx:71-78 | the conversation becomes active; its saved messages and mode are restored when there are any |
| Conversations.IndexPage.NewConversation | src/pages/Index.tsx:66-69 | nothing is active and the chat is empty; the list and the saved messages are kept |
| Conversations.IndexPage.BackToHome | src/pages/Index.tsx:80-83 | nothing is active and the chat is empty; the list and the saved messages are kept |
| Conversations.IndexPage.DeleteConversation | src/pages/Index.tsx:85-96 | the conversation leaves the list and the saved messages; if it was active, nothing is active and the chat is emptied; ids stay unique |
| ServiceWorker.JsonIsStatic | public/sw.js:108 | any URL containing ".json" counts as a static asset, because it contains ".js" |
| ServiceWorker.AbsoluteUrlSkipsAssetList | public/sw.js:100 | for an absolute URL the asset list never matches, so only the substring markers decide |
| ServiceWorker.RouteFor | public/sw.js:74-94 | non-GET requests are not intercepted; static assets go cache-first; other API requests network-first; other navigations to the navigation fallback; the rest network-first |
| ServiceWorker.MatchNone | public/sw.js:124 | a lookup finds nothing exactly when no cache holds the URL |
| ServiceWorker.MatchFirst | public/sw.js:124 | a lookup answers from the first cache, in creation order, that holds the URL |
| ServiceWorker.Without | public/sw.js:56 | deleting a cache name keeps exactly the other names |
| ServiceWorker.WithoutAppend | public/sw.js:56 | deletion keeps the remaining names in order |
| ServiceWorker.WithoutAbsent | public/sw.js:56 | deleting an absent name changes nothing |
| ServiceWorker.KeptNames | public/sw.js:53-57 | activation keeps exactly the static and dynamic cache names |
| ServiceWorker.CacheStorage.Put | public/sw.js:133 | the entry is stored in the named cache, creating it last in order if new; nothing else changes |
| ServiceWorker.CacheStorage.CacheFirst | public/sw.js:122-143 | the answer is the cached response without fetching, otherwise the network response or 503 "Hors ligne"; the store changes only by the OK network response written to the static cache on a miss, after which the URL is found |
| ServiceWorker.CacheStorage.NetworkFirst | public/sw.js:146-171 | the network response, or when the fetch throws the cached response, else the cached index page for navigations, else 503; the store changes only by the OK network response written to the dynamic cache |
| ServiceWorker.CacheStorage.NavigationFallback | public/sw.js:174-188 | the network response; when the fetch throws, the cached response or else the cached index page; the store is unchanged |
| ServiceWorker.CacheStorage.HandleFetch | public/sw.js:69-96 | only GET requests are handled; the answer and the new store are those of the strategy `RouteFor` picks, so navigations never change the caches |
| ServiceWorker.FetchKeepsOtherUrls | public/sw.js:122-171 | handling a request never changes what a lookup of any other URL finds |
| ServiceWorker.OfflineAfterOnline | public/sw.js:122-171 | an OK response fetched for an uncached URL by the cache-first or network-first strategy is what that strategy answers for the URL once the network is down |
| ServiceWorker.CacheStorage.Activate | public/sw.js:49-60 | only the current static and dynamic caches survive, in their order, with their contents |
| ServiceWorker.DeleteStale | public/sw.js:50-59 | the loop over the cache names deletes every stale cache and keeps the names distinct and in order |
| ServiceWorker.PutThenMatch | public/sw.js:131-133 | a response put into a store that did not hold the URL is what the next lookup returns |
| AttachmentTray.NewPreviews | src/components/CenteredChatInput.tsx:34-54 | one unread preview per selected file, in selection order, with its id, object URL and name |
| AttachmentTray.WithBase64 | src/components/CenteredChatInput.tsx:41-43 | only the entries with the id get the data; the rest are unchanged |
| AttachmentTray.WithProcessing | src/components/EnhancedChatInput.tsx:71-73 | only the entries with the id are marked as being recognised |
| AttachmentTray.WithOcrOutcome | src/components/EnhancedChatInput.tsx:78-102 | the entries with the id stop processing and keep the result on success; nothing else changes |
| AttachmentTray.WithoutImage | src/components/CenteredChatInput.tsx:72 | an image is kept exactly when its id differs |
| AttachmentTray.WithoutImageAppend | src/components/CenteredChatInput.tsx:72 | removal keeps the remaining images in order |
| AttachmentTray.WithoutAbsentImage | src/components/CenteredChatInput.tsx:72 | removing an absent id changes nothing |
| AttachmentTray.RemoveUndoesAdd | src/components/CenteredChatInput.tsx:66-74 | removing an image just added under a fresh id restores the tray |
| AttachmentTray.LateReadIsHarmless | src/components/CenteredChatInput.tsx:39-43 | a read that finishes after its image was removed changes nothing |
| AttachmentTray.ReadImages | src/components/CenteredChatInput.tsx:79 | exactly the non-empty image data of the tray are sent |
| AttachmentTray.ReadImagesAppend | src/components/CenteredChatInput.tsx:79 | the data are sent in tray order |
| AttachmentTray.AllReadAllSent | src/components/CenteredChatInput.tsx:79 | once every image has been read, all of them are sent, in order |
| AttachmentTray.PresentOcrResults | src/components/EnhancedChatInput.tsx:129 | at most one result per image; none in a tray without results |
| AttachmentTray.PresentOcrAppend | src/components/EnhancedChatInput.tsx:129 | the OCR results are sent in tray order |
| AttachmentTray.SubmitOutcome | src/components/EnhancedChatInput.tsx:125-131 | nothing is sent when loading or with neither text nor image; otherwise the trimmed text, the read images and the present OCR results |
| AttachmentTray.OcrKeepsImageData | src/components/EnhancedChatInput.tsx:78-102 | finishing recognition never changes the image data that is sent |
| AttachmentTray.ProcessingKeepsImageData | src/components/EnhancedChatInput.tsx:71-73 | starting recognition never changes the image data that is sent |
| AttachmentTray.OcrResultIsSent | src/components/EnhancedChatInput.tsx:78-84 | a successful recognition puts its result into the next submission, in that image's place |
| AttachmentTray.ImageTray.constructor | src/components/CenteredChatInput.tsx:19-20 | empty text and an empty tray |
| AttachmentTray.ImageTray.SetInput | src/components/CenteredChatInput.tsx:181 | the text is replaced and the tray is unchanged |
| AttachmentTray.ImageTray.HandleImageUpload | src/components/CenteredChatInput.tsx:25-57 | an empty selection does nothing; more than 25 files alert and change nothing; otherwise the unread previews are appended in order (the limit is per selection) |
| AttachmentTray.ImageTray.ReadComplete | src/components/EnhancedChatInput.tsx:47-55 | the image gets its data, and in the OCR trays it is also marked as being recognised |
| AttachmentTray.ImageTray.FinishOcr | src/components/EnhancedChatInput.tsx:70-104 | the recognition outcome is recorded as `WithOcrOutcome` states |
| AttachmentTray.ImageTray.RemoveImage | src/components/CenteredChatInput.tsx:66-74 | the image with the id is removed, the others are kept in order |
| AttachmentTray.ImageTray.HandleSubmit | src/components/EnhancedChatInput.tsx:125-135 | sends what `SubmitOutcome` states and then clears the text and the tray; when nothing is sent, nothing changes |
| AttachmentTray.ImageTray.HandleKeyDown | src/components/CenteredChatInput.tsx:87-92 | Enter without Shift submits; any other key sends nothing and changes nothing |
| AttachmentTray.SingleImageInput.constructor | src/components/ChatInput.tsx:11-13 | empty text and no image |
| AttachmentTray.SingleImageInput.SetInput | src/components/ChatInput.tsx:86 | the text is replaced and the image is unchanged |
| AttachmentTray.SingleImageInput.ReadComplete | src/components/ChatInput.tsx:21-25 | the read data replaces any previous image, in the preview and the data alike |
| AttachmentTray.SingleImageInput.RemoveImage | src/components/ChatInput.tsx:62 | the preview and the data are both cleared |
| AttachmentTray.SingleImageInput.Attached | src/components/ChatInput.tsx:31 | the image data is sent exactly when it is present and non-empty |
| AttachmentTray.SingleImageInput.HandleSubmit | src/components/ChatInput.tsx:29-36 | nothing is sent when loading or with neither text nor image; otherwise the trimmed text and the image are sent and everything is cleared |
| AttachmentTray.SingleImageInput.HandleKeyDown | src/components/ChatInput.tsx:38-43 | Enter without Shift submits; any other key sends nothing and changes nothing |

## Left out

- The JSON codec, `TextDecoder`, `toLowerCase`, Tesseract's recognition, `fetch`, `Deno.env`, `crypto.randomUUID`, `FileReader`, object URLs and `alert` are not modelled. They are parameters: oracles, or values already decided.
- Logging, timing (`Date.now`, the response-time field), CORS header contents, `scrollIntoView`, textarea resizing and rendering have no effect on the modelled state and are left out.
- Promise.race in `index.ts` becomes a boolean `timedOut`: which promise settles first is taken as given.
- The `fetch` calls and the cache writes that are not awaited become single atomic steps. The concurrent deletions on activation become one loop in creation order.
- StreamClient.EnhancedContent: `Math.round` of the confidence is not modelled; confidences are integers here.
- Ocr.OcrResult: the optional `words` field with its bounding boxes is not modelled.
- Ocr.OcrService: the Tesseract logger's progress output is not modelled.
- Regular expressions become character-level predicates for the patterns used. Case folding covers only ASCII letters and é, the only letters in the case-insensitive patterns.
- EdgeRouter.ValidateMedicalSources: nothing in the edge function calls it. The `catch` branch is modelled as a query that cannot be read.
- EdgeRouter.SelectPrompt: prompt-table keys inherited from `Object.prototype` (a mode such as "constructor") are not modelled. Non-string override values are not modelled either.
- The texts of the two built-in system prompts and the generation settings are left out. Only which prompt is chosen, and the models and key names, are modelled.
- Conversations.Title: it cuts at 40 Unicode code points, while `slice(0, 40)` cuts at 40 UTF-16 code units. The two differ for text outside the Basic Multilingual Plane. The question filter of `ocr.ts` does count UTF-16 code units.
- Ocr.OcrService.InitializeWorker: two calls that overlap across the `createWorker` await each create a worker, and all but the last one leak. The model runs each call as one atomic step.
- Ocr.OcrService.ExtractTextFromMultipleImages: the outcome of creating the worker is taken to be the same for every image of one call.
- The install handler and `updateCache` (which pre-fill the static cache) are not modelled. Neither are the `message`, `sync`, `push` and `notificationclick` handlers of `sw.js`.
- The cache key is the URL string. Request headers and `Vary` are not modelled.
- The QCM detection inside the OCR trays' recognition handler only logs, so it is not modelled in `AttachmentTray`.
- The PDF upload handler only shows an alert, so it is not modelled.
- `URL.revokeObjectURL` on removal is not modelled.
- The trays without OCR pass no OCR results. The model passes an empty list, which the chat hook treats the same way.
- AttachmentTray.ImageTray.HandleImageUpload: the alert's text with the file count is not modelled.
- React's batching is not modelled: each handler and each effect runs as one step on the current state.

## Findings

| source | as written | input that shows it | evidently intended | confidence | as-written member | corrected member |
|---|---|---|---|---|---|---|
| supabase/functions/chat/index.ts:154 | `crossValidateResponse` reads `systemOverride`, which is only bound inside the request handler (line 270). The resulting ReferenceError is caught at line 253 for every keyed provider, so no provider is ever called and the function always returns "". | a medicine-mode request with `enableCrossValidation: true` and `OPENAI_API_KEY` set: no provider call is made, and the request falls through to the primary gateway | pass the request's override in, so the first answering provider's text is returned | not executed | EdgeRouter.CrossValidationNeverAnswers | EdgeRouter.CrossValidationFirstAnswer |
| supabase/functions/chat/index.ts:368 | the timeout check looks for lower-case "délai", but the timeout error (line 274) says "Délai", so the raw timeout text is returned | a request that times out after 7.5 s: the reply is "Délai de réponse ultra-rapide dépassé" | match the timeout's own message, so the user gets "Délai de réponse dépassé. Veuillez simplifier votre question." | not executed | EdgeRouter.TimeoutPassesThrough | EdgeRouter.IntendedTimeoutAdvice |
