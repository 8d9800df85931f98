/**
 * The chat hook of src/hooks/useChat.ts: one chat turn appends the user's
 * message, posts the history to the edge function and reassembles the
 * assistant's answer from a server-sent-event body (a simplified subset of
 * the event-stream format of section 9.2 of the WHATWG HTML Living Standard:
 * only `data: ` lines, one line per event, no `event:`/`id:` fields).
 *
 * The body arrives as text chunks: TextDecoder's streaming decode is taken
 * to have already turned the bytes into strings. JSON.parse is an oracle,
 * `parse`, that either fails or yields `choices[0].delta.content`.
 */
module StreamClient {
  import opened Js
  import opened Ocr

  datatype Mode = Medicine | Informatique

  /** The wire name of a mode. */
  function ModeName(m: Mode): string {
    match m
    case Medicine => "medicine"
    case Informatique => "informatique"
  }

  datatype Role = User | Assistant

  datatype Message = Message(
    role: Role,
    content: string,
    images: seq<string>,        // data URLs; [] stands for `undefined`
    ocrResults: seq<OcrResult>,
    imageUrl: Option<string>)

  /** The user's message of a turn: its own content, never the OCR text, and the first image as `imageUrl`. */
  function UserMessage(content: string, images: seq<string>, ocrResults: seq<OcrResult>): (m: Message)
    ensures m.role == User && m.content == content && m.images == images && m.ocrResults == ocrResults
    ensures m.imageUrl.Some? <==> |images| > 0
    ensures m.imageUrl.Some? ==> m.imageUrl.value == images[0]
  {
    Message(User, content, images, ocrResults, if |images| > 0 then Some(images[0]) else None)
  }

  function AssistantMessage(content: string): Message {
    Message(Assistant, content, [], [], None)
  }

  // ---------------------------------------------------------------------
  // The OCR-enhanced text (computed by the hook, then never sent)
  // ---------------------------------------------------------------------

  /** One `--- Question k (OCR c%) ---` section, for the result at 0-based `index`. */
  function OcrSection(index: nat, r: OcrResult): string {
    "--- Question " + NatToString(index + 1) + " (OCR " + IntToString(r.confidence) + "%) ---\n" + r.text
  }

  function OcrDigest(results: seq<OcrResult>): string {
    Join(seq(|results|, i requires 0 <= i < |results| => OcrSection(i, results[i])), "\n\n")
  }

  /** A single result gives a single section, labelled as the first question. */
  lemma {:induction false} OcrDigestSingle(x: OcrResult)
    ensures OcrDigest([x]) == OcrSection(0, x)
  {
    assert seq(1, i requires 0 <= i < 1 => OcrSection(i, [x][i])) == [OcrSection(0, x)];
  }

  /**
   * Each further result adds, after a blank line, one section labelled with
   * its 1-based number and its rounded confidence and ending with its text.
   */
  lemma {:induction false} OcrDigestAppend(results: seq<OcrResult>, x: OcrResult)
    requires results != []
    ensures OcrDigest(results + [x]) == OcrDigest(results) + "\n\n" + OcrSection(|results|, x)
  {
    var n := |results|;
    var all := results + [x];
    var sections := seq(n, i requires 0 <= i < n => OcrSection(i, results[i]));
    assert seq(n + 1, i requires 0 <= i < n + 1 => OcrSection(i, all[i])) == sections + [OcrSection(n, x)];
    JoinAppend(sections, OcrSection(n, x), "\n\n");
  }

  /**
   * The content with the OCR digest appended, as built at the top of `send`:
   * the user's text comes first and is kept whole, the digest ends the
   * content, and without OCR results the content is unchanged.
   */
  function EnhancedContent(content: string, results: seq<OcrResult>): (r: string)
    ensures results == [] ==> r == content
    ensures content <= r
    ensures results != [] ==> |OcrDigest(results)| <= |r| && r[|r| - |OcrDigest(results)|..] == OcrDigest(results)
    ensures results != [] ==> (r == OcrDigest(results) <==> content == "")
  {
    if |results| > 0 then (if content != "" then content + "\n\n" + OcrDigest(results) else OcrDigest(results))
    else content
  }

  // ---------------------------------------------------------------------
  // The request body
  // ---------------------------------------------------------------------

  datatype WireMessage = WireMessage(role: Role, content: string, images: seq<string>, imageBase64: Option<string>)

  datatype ChatRequest = ChatRequest(
    messages: seq<WireMessage>,
    mode: Mode,
    enableCrossValidation: bool,
    systemOverride: string)

  /** The fixed prompt override every request carries. */
  const ConciseOverride: string :=
    "RÉPONSES COURTES : Sois extrêmement concis. Réponds directement sans développement sauf si \"développe\" ou \"explique en détail\" est demandé. Format : Réponse directe + Certitude."

  function ToWire(m: Message): WireMessage {
    WireMessage(m.role, m.content, m.images, if |m.images| > 0 then Some(m.images[0]) else None)
  }

  /** The JSON body posted to the chat endpoint. */
  function BuildRequest(history: seq<Message>, mode: Mode): (r: ChatRequest)
    ensures |r.messages| == |history|
    ensures forall i :: 0 <= i < |history| ==>
              && r.messages[i].role == history[i].role
              && r.messages[i].content == history[i].content
              && r.messages[i].images == history[i].images
              && r.messages[i].imageBase64 == (if |history[i].images| > 0 then Some(history[i].images[0]) else None)
    ensures r.mode == mode
    ensures r.enableCrossValidation <==> mode == Medicine
    ensures r.systemOverride == ConciseOverride
  {
    ChatRequest(seq(|history|, i requires 0 <= i < |history| => ToWire(history[i])), mode, mode == Medicine, ConciseOverride)
  }

  /** Two histories that differ at most in their OCR results and image URLs. */
  ghost predicate SameButOcr(a: seq<Message>, b: seq<Message>) {
    && |a| == |b|
    && forall i :: 0 <= i < |a| ==> a[i].role == b[i].role && a[i].content == b[i].content && a[i].images == b[i].images
  }

  /** The OCR results never reach the request: the enhanced content is computed and dropped. */
  lemma {:induction false} RequestIgnoresOcr(a: seq<Message>, b: seq<Message>, mode: Mode)
    requires SameButOcr(a, b)
    ensures BuildRequest(a, mode) == BuildRequest(b, mode)
  {
    var ra, rb := BuildRequest(a, mode), BuildRequest(b, mode);
    assert forall i :: 0 <= i < |a| ==> ra.messages[i] == rb.messages[i];
    assert ra.messages == rb.messages;
  }

  // ---------------------------------------------------------------------
  // Reading the event stream
  // ---------------------------------------------------------------------

  /** What JSON.parse of a payload gives: a failure, or `choices[0].delta.content` ("" when absent or empty). */
  datatype Parsed = ParseError | Json(deltaContent: string)

  /** How the scan treats one line, once its trailing carriage return is removed. */
  datatype LineKind = NotData | DoneMarker | Malformed | Delta(content: string)

  const DataPrefix: string := "data: "
  const DoneSentinel: string := "[DONE]"

  /** `if (line.endsWith("\r")) line = line.slice(0, -1)`. */
  function StripCR(line: string): (r: string)
    ensures r == line || r + "\r" == line
  {
    if |line| > 0 && line[|line| - 1] == '\r' then line[..|line| - 1] else line
  }

  /** The trimmed text after `data: `. */
  function Payload(line: string): string
    requires DataPrefix <= line
  {
    Trim(line[|DataPrefix|..])
  }

  /** How the inner loop treats a line, once its trailing carriage return is removed; ClassifyKinds gives its meaning. */
  function Classify(line: string, parse: string -> Parsed): LineKind
  {
    if !(DataPrefix <= line) then NotData
    else if Payload(line) == DoneSentinel then DoneMarker
    else match parse(Payload(line))
      case ParseError => Malformed
      case Json(c) => Delta(c)
  }

  /**
   * Lines without `data: ` are skipped, the `[DONE]` payload stops the scan
   * without being parsed, and any other payload is parsed: a failure puts
   * the line back, a success yields its delta content.
   */
  lemma {:induction false} ClassifyKinds(line: string, parse: string -> Parsed)
    ensures Classify(line, parse) == NotData <==> !(DataPrefix <= line)
    ensures Classify(line, parse) == DoneMarker <==> DataPrefix <= line && Payload(line) == DoneSentinel
    ensures Classify(line, parse) == Malformed <==>
              DataPrefix <= line && Payload(line) != DoneSentinel && parse(Payload(line)) == ParseError
    ensures Classify(line, parse).Delta? ==>
              DataPrefix <= line && Payload(line) != DoneSentinel && parse(Payload(line)) == Json(Classify(line, parse).content)
  {
  }

  /** Removing a trailing carriage return never changes how a line is treated. */
  lemma {:induction false} ClassifyStripCR(line: string, parse: string -> Parsed)
    ensures Classify(StripCR(line), parse) == Classify(line, parse)
  {
    var s := StripCR(line);
    if s != line {
      assert line == s + "\r";
      if |s| >= |DataPrefix| {
        assert line[..|DataPrefix|] == s[..|DataPrefix|];
        if DataPrefix <= s {
          assert line[|DataPrefix|..] == s[|DataPrefix|..] + "\r";
          TrimDropsTrailingSpace(s[|DataPrefix|..], '\r');
        }
      } else {
        assert line[|s|] == '\r' && DataPrefix[|s|] != '\r';
      }
    }
  }

  /** Only non-empty deltas reach `upsert`. */
  function Emitted(c: string): seq<string> {
    if c == "" then [] else [c]
  }

  ghost predicate NoEmpty(deltas: seq<string>) {
    forall i :: 0 <= i < |deltas| ==> deltas[i] != ""
  }

  lemma {:induction false} NoEmptyAppend(a: seq<string>, b: seq<string>)
    requires NoEmpty(a) && NoEmpty(b)
    ensures NoEmpty(a + b)
  {
    assert forall i :: 0 <= i < |a + b| ==> (a + b)[i] == (if i < |a| then a[i] else b[i - |a|]);
  }

  datatype Scan = Scan(deltas: seq<string>, rest: string)

  /**
   * One pass of the inner loop of `send`: what is left of the buffer, the
   * deltas the pass emits, and whether the loop goes on.
   */
  datatype Step = Step(more: bool, rest: string, emitted: seq<string>)

  /**
   * Cut `buf` at its first '\n' and drop a trailing '\r': a non-data line
   * is skipped, `[DONE]` stops the loop, a line that does not parse is put
   * back in front of the rest and stops the loop, and a delta is emitted.
   * Without a complete line the loop stops and keeps the buffer.
   */
  function LineStep(buf: string, parse: string -> Parsed): (s: Step)
    ensures s.more ==> |s.rest| < |buf|
    ensures NoEmpty(s.emitted) && (!s.more ==> s.emitted == [])
    ensures '\n' !in buf ==> s == Step(false, buf, [])
  {
    var idx := IndexOf(buf, '\n');
    if idx < 0 then Step(false, buf, [])
    else
      var line := StripCR(buf[..idx]);
      var rest := buf[idx + 1..];
      match Classify(line, parse)
      case NotData => Step(true, rest, [])
      case DoneMarker => Step(false, rest, [])
      case Malformed => Step(false, line + "\n" + rest, [])
      case Delta(c) => Step(true, rest, Emitted(c))
  }

  /**
   * The inner loop of `send` over one buffer: repeat the pass until it
   * stops, gathering the deltas.
   */
  function ScanBuffer(buf: string, parse: string -> Parsed): (s: Scan)
    ensures NoEmpty(s.deltas)
    ensures |s.rest| <= |buf|
    ensures '\n' !in buf ==> s == Scan([], buf)
    decreases |buf|
  {
    var step := LineStep(buf, parse);
    if !step.more then Scan(step.emitted, step.rest)
    else
      var s := ScanBuffer(step.rest, parse);
      NoEmptyAppend(step.emitted, s.deltas);
      Scan(step.emitted + s.deltas, s.rest)
  }

  /**
   * The outer loop of `send`: append each chunk to the buffer and scan it;
   * what is left in the buffer when the reader reports `done` is the rest.
   */
  function Drain(buf: string, chunks: seq<string>, parse: string -> Parsed): (s: Scan)
    ensures NoEmpty(s.deltas)
    decreases |chunks|
  {
    if chunks == [] then Scan([], buf)
    else
      var first := ScanBuffer(buf + chunks[0], parse);
      var more := Drain(first.rest, chunks[1..], parse);
      NoEmptyAppend(first.deltas, more.deltas);
      Scan(first.deltas + more.deltas, more.rest)
  }

  // ---------------------------------------------------------------------
  // The line-level reference and the chunking theorem
  // ---------------------------------------------------------------------

  /** A body made of newline-terminated lines. */
  function Render(lines: seq<string>): string {
    if lines == [] then "" else lines[0] + "\n" + Render(lines[1..])
  }

  /** The deltas the lines carry, in order, up to a `[DONE]` or a line that does not parse. */
  function LineDeltas(lines: seq<string>, parse: string -> Parsed): seq<string>
    decreases |lines|
  {
    if lines == [] then []
    else
      match Classify(StripCR(lines[0]), parse)
      case DoneMarker => []
      case Malformed => []
      case NotData => LineDeltas(lines[1..], parse)
      case Delta(c) => Emitted(c) + LineDeltas(lines[1..], parse)
  }

  /**
   * A well-formed body: lines hold no '\n', every `data: ` payload parses,
   * and a `[DONE]` line, if any, is the last line.
   */
  ghost predicate WellFormed(lines: seq<string>, parse: string -> Parsed)
    decreases |lines|
  {
    lines != [] ==>
      var kind := Classify(StripCR(lines[0]), parse);
      && '\n' !in lines[0]
      && kind != Malformed
      && (kind == DoneMarker ==> |lines| == 1)
      && WellFormed(lines[1..], parse)
  }

  /** The lines of a well-formed body hold no newline. */
  lemma {:induction false} WellFormedLines(lines: seq<string>, parse: string -> Parsed)
    requires WellFormed(lines, parse)
    ensures forall i :: 0 <= i < |lines| ==> '\n' !in lines[i]
    decreases |lines|
  {
    if lines != [] {
      WellFormedLines(lines[1..], parse);
      assert forall i :: 1 <= i < |lines| ==> lines[i] == lines[1..][i - 1];
    }
  }

  lemma {:induction false} RenderAppend(a: seq<string>, b: seq<string>)
    ensures Render(a + b) == Render(a) + Render(b)
  {
    if a == [] {
      assert a + b == b;
    } else {
      assert (a + b)[1..] == a[1..] + b;
      RenderAppend(a[1..], b);
    }
  }

  /**
   * Any split point of `Render(lines) + tail` falls after some number `k`
   * of whole lines, inside the next line (or the tail): `u` is the part of
   * it already seen.
   */
  lemma {:induction false} SplitPoint(lines: seq<string>, tail: string, p: string, q: string)
    returns (k: nat, u: string)
    requires forall i :: 0 <= i < |lines| ==> '\n' !in lines[i]
    requires '\n' !in tail
    requires p + q == Render(lines) + tail
    ensures k <= |lines|
    ensures p == Render(lines[..k]) + u
    ensures '\n' !in u
    ensures u + q == Render(lines[k..]) + tail
  {
    if lines == [] {
      k, u := 0, p;
      SplitAt(p, q, tail);
      assert lines[..0] == [] && lines[0..] == [];
    } else {
      var l, r := lines[0], Render(lines[1..]) + tail;
      assert p + q == l + "\n" + r;
      if |p| <= |l| {
        k, u := 0, p;
        SplitInside(l, r, p, q);
        assert lines[..0] == [] && lines[0..] == lines;
      } else {
        var p' := SplitAfter(l, r, p, q);
        var k';
        k', u := SplitPoint(lines[1..], tail, p', q);
        k := k' + 1;
        RenderTake(lines, k);
      }
    }
  }

  lemma {:induction false} SplitAt(p: string, q: string, x: string)
    requires p + q == x
    ensures |p| <= |x| && p == x[..|p|] && q == x[|p|..]
  {
    assert (p + q)[..|p|] == p;
    assert (p + q)[|p|..] == q;
  }

  /** A split point inside the first line leaves a part of that line, so no newline. */
  lemma {:induction false} SplitInside(l: string, r: string, p: string, q: string)
    requires p + q == l + "\n" + r
    requires |p| <= |l| && '\n' !in l
    ensures '\n' !in p
  {
    SplitAt(p, q, l + "\n" + r);
    assert p == l[..|p|];
  }

  /** A split point past the first line's newline leaves the remainder `p'` of the later lines. */
  lemma {:induction false} SplitAfter(l: string, r: string, p: string, q: string) returns (p': string)
    requires p + q == l + "\n" + r
    requires |p| > |l|
    ensures p == l + "\n" + p' && p' + q == r
  {
    var x := l + "\n" + r;
    SplitAt(p, q, x);
    p' := p[|l| + 1..];
    assert p[..|l| + 1] == x[..|l| + 1] == l + "\n";
    assert p == p[..|l| + 1] + p';
    assert x[|l| + 1..] == r;
  }

  lemma {:induction false} RenderTake(lines: seq<string>, k: nat)
    requires 0 < k <= |lines|
    ensures Render(lines[..k]) == lines[0] + "\n" + Render(lines[1..][..k - 1])
    ensures lines[k..] == lines[1..][k - 1..]
  {
    assert lines[..k][0] == lines[0] && lines[..k][1..] == lines[1..][..k - 1];
  }

  /** The scan of a buffer whose first line is `line`, by the kind of that line. */
  lemma {:induction false} ScanFirstLine(line: string, after: string, parse: string -> Parsed)
    requires '\n' !in line
    ensures Classify(StripCR(line), parse) == NotData ==>
              ScanBuffer(line + "\n" + after, parse) == ScanBuffer(after, parse)
    ensures Classify(StripCR(line), parse) == DoneMarker ==>
              ScanBuffer(line + "\n" + after, parse) == Scan([], after)
    ensures Classify(StripCR(line), parse) == Malformed ==>
              ScanBuffer(line + "\n" + after, parse) == Scan([], StripCR(line) + "\n" + after)
    ensures Classify(StripCR(line), parse).Delta? ==>
              var c := Classify(StripCR(line), parse).content;
              ScanBuffer(line + "\n" + after, parse) ==
                Scan(Emitted(c) + ScanBuffer(after, parse).deltas, ScanBuffer(after, parse).rest)
  {
    match Classify(StripCR(line), parse)
    case NotData => ScanSkipsLine(line, after, parse);
    case DoneMarker => ScanStopsAtDone(line, after, parse);
    case Malformed => ScanPutsBack(line, after, parse);
    case Delta(_) => ScanEmitsLine(line, after, parse);
  }

  lemma {:induction false} ScanSkipsLine(line: string, after: string, parse: string -> Parsed)
    requires '\n' !in line && Classify(StripCR(line), parse) == NotData
    ensures ScanBuffer(line + "\n" + after, parse) == ScanBuffer(after, parse)
  {
    LineStepFirstLine(line, after, parse);
    assert LineStep(line + "\n" + after, parse) == Step(true, after, []);
    var s := ScanBuffer(after, parse);
    assert [] + s.deltas == s.deltas;
  }

  lemma {:induction false} ScanStopsAtDone(line: string, after: string, parse: string -> Parsed)
    requires '\n' !in line && Classify(StripCR(line), parse) == DoneMarker
    ensures ScanBuffer(line + "\n" + after, parse) == Scan([], after)
  {
    LineStepFirstLine(line, after, parse);
    assert LineStep(line + "\n" + after, parse) == Step(false, after, []);
  }

  lemma {:induction false} ScanPutsBack(line: string, after: string, parse: string -> Parsed)
    requires '\n' !in line && Classify(StripCR(line), parse) == Malformed
    ensures ScanBuffer(line + "\n" + after, parse) == Scan([], StripCR(line) + "\n" + after)
  {
    LineStepFirstLine(line, after, parse);
    assert LineStep(line + "\n" + after, parse) == Step(false, StripCR(line) + "\n" + after, []);
  }

  lemma {:induction false} ScanEmitsLine(line: string, after: string, parse: string -> Parsed)
    requires '\n' !in line && Classify(StripCR(line), parse).Delta?
    ensures var c := Classify(StripCR(line), parse).content;
            ScanBuffer(line + "\n" + after, parse) ==
              Scan(Emitted(c) + ScanBuffer(after, parse).deltas, ScanBuffer(after, parse).rest)
  {
    LineStepFirstLine(line, after, parse);
    assert LineStep(line + "\n" + after, parse) == Step(true, after, Emitted(Classify(StripCR(line), parse).content));
  }

  /** One pass over a buffer whose first line is `line`, by the kind of that line. */
  lemma {:induction false} LineStepFirstLine(line: string, after: string, parse: string -> Parsed)
    requires '\n' !in line
    ensures LineStep(line + "\n" + after, parse) ==
              match Classify(StripCR(line), parse)
              case NotData => Step(true, after, [])
              case DoneMarker => Step(false, after, [])
              case Malformed => Step(false, StripCR(line) + "\n" + after, [])
              case Delta(c) => Step(true, after, Emitted(c))
  {
    var buf := line + "\n" + after;
    IndexOfFirst(line, '\n', after);
    assert buf[..|line|] == line;
    assert buf[|line| + 1..] == after;
  }

  /** A line kind after which the scan goes on. */
  predicate Continues(k: LineKind) {
    k.NotData? || k.Delta?
  }

  /** Every line lets the scan go on. */
  ghost predicate AllContinue(lines: seq<string>, parse: string -> Parsed)
    decreases |lines|
  {
    lines != [] ==> Continues(Classify(StripCR(lines[0]), parse)) && AllContinue(lines[1..], parse)
  }

  /** Scanning complete well-formed lines followed by a partial line yields their deltas and keeps the partial line. */
  lemma {:induction false} ScanRendered(lines: seq<string>, u: string, parse: string -> Parsed)
    requires WellFormed(lines, parse)
    requires '\n' !in u
    ensures ScanBuffer(Render(lines) + u, parse) == Scan(LineDeltas(lines, parse), u)
  {
    if lines != [] {
      var l, more := lines[0], lines[1..];
      var rest := Render(more) + u;
      assert Render(lines) + u == l + "\n" + rest;
      var kind := Classify(StripCR(l), parse);
      if kind == DoneMarker {
        ScanStopsAtDone(l, rest, parse);
        assert more == [];
      } else {
        assert ScanBuffer(rest, parse) == Scan(LineDeltas(more, parse), u) by {
          ScanRendered(more, u, parse);
        }
        LineDeltasHead(lines, parse);
        if kind == NotData {
          ScanSkipsLine(l, rest, parse);
        } else {
          ScanEmitsLine(l, rest, parse);
        }
      }
    }
  }

  /** The deltas a line of kind `k` contributes when the scan goes on past it. */
  function LineEmits(k: LineKind): seq<string> {
    if k.Delta? then Emitted(k.content) else []
  }

  /** A first line after which the scan goes on contributes its deltas ahead of the others. */
  lemma {:induction false} LineDeltasHead(lines: seq<string>, parse: string -> Parsed)
    requires lines != [] && Continues(Classify(StripCR(lines[0]), parse))
    ensures LineDeltas(lines, parse) == LineEmits(Classify(StripCR(lines[0]), parse)) + LineDeltas(lines[1..], parse)
  {
  }

  /** Whole lines free of `[DONE]` and of unparsable data contribute their deltas independently of what follows. */
  lemma {:induction false} LineDeltasAppend(a: seq<string>, b: seq<string>, parse: string -> Parsed)
    requires AllContinue(a, parse)
    ensures LineDeltas(a + b, parse) == LineDeltas(a, parse) + LineDeltas(b, parse)
  {
    if a == [] {
      assert a + b == b;
    } else {
      var head := LineEmits(Classify(StripCR(a[0]), parse));
      assert LineDeltas(a + b, parse) == head + LineDeltas(a[1..] + b, parse) by {
        assert (a + b)[0] == a[0] && (a + b)[1..] == a[1..] + b;
        LineDeltasHead(a + b, parse);
      }
      assert LineDeltas(a, parse) == head + LineDeltas(a[1..], parse) by {
        LineDeltasHead(a, parse);
      }
      assert LineDeltas(a[1..] + b, parse) == LineDeltas(a[1..], parse) + LineDeltas(b, parse) by {
        LineDeltasAppend(a[1..], b, parse);
      }
      AppendAssoc(head, LineDeltas(a[1..], parse), LineDeltas(b, parse));
    }
  }

  /** A suffix of a well-formed body is well formed. */
  lemma {:induction false} WellFormedSuffix(lines: seq<string>, k: nat, parse: string -> Parsed)
    requires WellFormed(lines, parse)
    requires k <= |lines|
    ensures WellFormed(lines[k..], parse)
    decreases k
  {
    if k == 0 {
      assert lines[0..] == lines;
    } else {
      WellFormedSuffix(lines[1..], k - 1, parse);
      assert lines[k..] == lines[1..][k - 1..];
    }
  }

  /** A prefix of a well-formed body is well formed, and a proper prefix lets the scan go on. */
  lemma {:induction false} WellFormedPrefix(lines: seq<string>, k: nat, parse: string -> Parsed)
    requires WellFormed(lines, parse)
    requires k <= |lines|
    ensures WellFormed(lines[..k], parse)
    ensures k < |lines| ==> AllContinue(lines[..k], parse)
    decreases k
  {
    if k == |lines| {
      assert lines[..k] == lines;
    } else if k > 0 {
      var front := lines[..k];
      WellFormedPrefix(lines[1..], k - 1, parse);
      assert front[0] == lines[0];
      assert front[1..] == lines[1..][..k - 1];
    }
  }

  lemma {:induction false} WellFormedSlices(lines: seq<string>, k: nat, parse: string -> Parsed)
    requires WellFormed(lines, parse)
    requires k <= |lines|
    ensures WellFormed(lines[..k], parse) && WellFormed(lines[k..], parse)
    ensures k < |lines| ==> AllContinue(lines[..k], parse)
  {
    WellFormedPrefix(lines, k, parse);
    WellFormedSuffix(lines, k, parse);
  }


  /** Render of at least one line contains a newline. */
  lemma {:induction false} RenderNonEmpty(lines: seq<string>, tail: string)
    requires lines != []
    ensures '\n' in Render(lines) + tail
  {
    assert (Render(lines) + tail)[|lines[0]|] == '\n';
  }

  /** The outer loop over a well-formed body, from any buffer that holds a partial line. */
  lemma {:induction false} DrainWellFormed(lines: seq<string>, tail: string, buf: string, chunks: seq<string>, parse: string -> Parsed)
    requires WellFormed(lines, parse)
    requires '\n' !in tail && '\n' !in buf
    requires buf + Concat(chunks) == Render(lines) + tail
    ensures Drain(buf, chunks, parse) == Scan(LineDeltas(lines, parse), tail)
    decreases |chunks|
  {
    if chunks == [] {
      assert buf == Render(lines) + tail;
      if lines != [] {
        RenderNonEmpty(lines, tail);
        assert false;
      }
    } else {
      var p, q := buf + chunks[0], Concat(chunks[1..]);
      assert p + q == Render(lines) + tail;
      WellFormedLines(lines, parse);
      var k, u := SplitPoint(lines, tail, p, q);
      WellFormedSlices(lines, k, parse);
      ScanRendered(lines[..k], u, parse);
      DrainWellFormed(lines[k..], tail, u, chunks[1..], parse);
      LineDeltasSplit(lines, k, parse);
    }
  }

  /** The deltas of a well-formed body are those of any prefix followed by those of the rest. */
  lemma {:induction false} LineDeltasSplit(lines: seq<string>, k: nat, parse: string -> Parsed)
    requires WellFormed(lines, parse)
    requires k <= |lines|
    ensures LineDeltas(lines, parse) == LineDeltas(lines[..k], parse) + LineDeltas(lines[k..], parse)
  {
    var front, back := lines[..k], lines[k..];
    assert lines == front + back;
    if k < |lines| {
      assert AllContinue(front, parse) by {
        WellFormedSlices(lines, k, parse);
      }
      LineDeltasAppend(front, back, parse);
    } else {
      assert back == [] && front == lines;
      assert LineDeltas(back, parse) == [];
    }
  }

  /**
   * Chunking invariance: whatever the chunk boundaries, a well-formed body
   * yields the deltas of its lines in order, and an unterminated tail is
   * left in the buffer, never parsed.
   */
  lemma {:induction false} ChunkingInvariance(lines: seq<string>, tail: string, chunks: seq<string>, parse: string -> Parsed)
    requires WellFormed(lines, parse)
    requires '\n' !in tail
    requires Concat(chunks) == Render(lines) + tail
    ensures Drain("", chunks, parse) == Scan(LineDeltas(lines, parse), tail)
  {
    DrainWellFormed(lines, tail, "", chunks, parse);
  }

  /** A single line carrying a non-empty delta yields exactly that delta. */
  lemma {:induction false} LineDeltasOfDelta(line: string, parse: string -> Parsed)
    requires Classify(StripCR(line), parse).Delta? && Classify(StripCR(line), parse).content != ""
    ensures LineDeltas([line], parse) == [Classify(StripCR(line), parse).content]
  {
    assert [line][0] == line && [line][1..] == [];
  }

  /** A tail without its newline is dropped even when it is a data line that parses to a non-empty delta. */
  lemma {:induction false} UnterminatedTailDropped(lines: seq<string>, tail: string, chunks: seq<string>, parse: string -> Parsed)
    requires WellFormed(lines, parse) && AllContinue(lines, parse)
    requires '\n' !in tail
    requires Classify(StripCR(tail), parse).Delta? && Classify(StripCR(tail), parse).content != ""
    requires Concat(chunks) == Render(lines) + tail
    ensures Drain("", chunks, parse).deltas == LineDeltas(lines, parse)
    ensures LineDeltas(lines + [tail], parse) == LineDeltas(lines, parse) + [Classify(StripCR(tail), parse).content]
  {
    assert Drain("", chunks, parse).deltas == LineDeltas(lines, parse) by {
      ChunkingInvariance(lines, tail, chunks, parse);
    }
    LineDeltasOfDelta(tail, parse);
    LineDeltasAppend(lines, [tail], parse);
  }

  lemma {:induction false} AppendAssoc(a: seq<string>, b: seq<string>, c: seq<string>)
    ensures (a + b) + c == a + (b + c)
  {
  }

  /** A string around one of its newlines. */
  lemma {:induction false} CutAt(s: string, idx: int)
    requires 0 <= idx < |s| && s[idx] == '\n'
    ensures s == s[..idx] + "\n" + s[idx + 1..]
  {
  }

  /** One more chunk read by the outer loop. */
  lemma {:induction false} DrainStep(buf: string, chunks: seq<string>, i: nat, parse: string -> Parsed)
    requires i < |chunks|
    ensures var first := ScanBuffer(buf + chunks[i], parse);
            var more := Drain(first.rest, chunks[i + 1..], parse);
            Drain(buf, chunks[i..], parse) == Scan(first.deltas + more.deltas, more.rest)
  {
    assert chunks[i..][0] == chunks[i] && chunks[i..][1..] == chunks[i + 1..];
  }

  /**
   * A data line that does not parse blocks the stream for good: it is put
   * back at the head of the buffer, fails again after every later read, and
   * no later line is ever scanned.
   */
  lemma {:induction false} MalformedBlocks(line: string, after: string, chunks: seq<string>, parse: string -> Parsed)
    requires '\n' !in line
    requires Classify(StripCR(line), parse) == Malformed
    ensures Drain(line + "\n" + after, chunks, parse).deltas == []
    decreases |chunks|
  {
    if chunks != [] {
      var s := StripCR(line);
      assert line + "\n" + after + chunks[0] == line + "\n" + (after + chunks[0]);
      ScanFirstLine(line, after + chunks[0], parse);
      assert '\n' !in s by {
        assert s == line || s == line[..|line| - 1];
      }
      ClassifyStripCR(s, parse);
      MalformedBlocks(s, after + chunks[0], chunks[1..], parse);
    }
  }

  /**
   * `[DONE]` ends only the scan of the current chunk: the rest of that chunk
   * stays in the buffer and is scanned together with the next chunk.
   */
  lemma {:induction false} DoneEndsOnlyCurrentChunk(done: string, after: string, chunks: seq<string>, parse: string -> Parsed)
    requires '\n' !in done
    requires Classify(StripCR(done), parse) == DoneMarker
    ensures Drain("", [done + "\n" + after] + chunks, parse) == Drain(after, chunks, parse)
  {
    DrainStep("", [done + "\n" + after] + chunks, 0, parse);
    assert "" + (done + "\n" + after) == done + "\n" + after;
    ScanFirstLine(done, after, parse);
    assert ([done + "\n" + after] + chunks)[0..] == [done + "\n" + after] + chunks;
    assert ([done + "\n" + after] + chunks)[1..] == chunks;
  }

  // ---------------------------------------------------------------------
  // The transcript
  // ---------------------------------------------------------------------

  /**
   * `upsert`'s update of the message list: replace the content of a trailing
   * assistant message, or append one assistant message.
   */
  function Upserted(msgs: seq<Message>, soFar: string): (r: seq<Message>)
    ensures |msgs| > 0 && msgs[|msgs| - 1].role == Assistant ==>
              |r| == |msgs| && r[|r| - 1] == msgs[|msgs| - 1].(content := soFar)
    ensures !(|msgs| > 0 && msgs[|msgs| - 1].role == Assistant) ==> r == msgs + [AssistantMessage(soFar)]
    ensures forall i :: 0 <= i < |msgs| - 1 ==> r[i] == msgs[i]
  {
    if |msgs| > 0 && msgs[|msgs| - 1].role == Assistant then
      msgs[..|msgs| - 1] + [msgs[|msgs| - 1].(content := soFar)]
    else
      msgs + [AssistantMessage(soFar)]
  }

  /** The messages after a turn whose `upsert` calls received `upserts`, in order. */
  function Transcript(history: seq<Message>, upserts: seq<string>): (r: seq<Message>)
    ensures |history| <= |r| && r[..|history|] == history
    ensures upserts == [] <==> r == history
    ensures upserts != [] ==> |r| == |history| + 1 && r[|history|] == AssistantMessage(Concat(upserts))
  {
    if upserts == [] then history else history + [AssistantMessage(Concat(upserts))]
  }

  /** One more `upsert` on a turn that began with a user message keeps the closed form. */
  lemma {:induction false} UpsertStep(history: seq<Message>, upserts: seq<string>, c: string)
    requires |history| > 0 && history[|history| - 1].role == User
    ensures Concat(upserts + [c]) == Concat(upserts) + c
    ensures Upserted(Transcript(history, upserts), Concat(upserts) + c) == Transcript(history, upserts + [c])
  {
    ConcatAppend(upserts, [c]);
    assert Concat([c]) == c;
    if upserts != [] {
      var t := Transcript(history, upserts);
      assert t[..|t| - 1] == history;
    }
  }

  /** The notice a non-OK response turns into. */
  datatype ErrorBody = NotJson | ErrorJson(error: string)   // "" stands for a missing or empty `error`

  /**
   * The notice for a refused request: the warning sign, then the body's
   * `error`, "Erreur réseau" when the body is not JSON, or "Erreur du
   * service" when the error is missing or empty.
   */
  function ErrorNotice(body: ErrorBody): (s: string)
    ensures "⚠️ " <= s
    ensures body.NotJson? ==> s == "⚠️ Erreur réseau"
    ensures body.ErrorJson? && body.error == "" ==> s == "⚠️ Erreur du service"
    ensures body.ErrorJson? && body.error != "" ==> s == "⚠️ " + body.error
  {
    "⚠️ " + match body
      case NotJson => "Erreur réseau"
      case ErrorJson(e) => if e == "" then "Erreur du service" else e
  }

  const ConnectionError: string := "⚠️ Erreur de connexion. Réessayez."

  /**
   * What the chat endpoint does, as seen by the hook: `fetch` throws, or
   * answers non-OK, or answers a body that the reader delivers as `chunks`
   * and then either reports `done` or throws.
   */
  datatype Reply =
    | FetchThrew
    | NotOk(body: ErrorBody)
    | Streamed(chunks: seq<string>, readThrew: bool)

  /** The arguments `upsert` receives during one turn, in order. */
  function TurnUpserts(reply: Reply, parse: string -> Parsed): (u: seq<string>)
    ensures NoEmpty(u)
  {
    match reply
    case FetchThrew => [ConnectionError]
    case NotOk(body) => [ErrorNotice(body)]
    case Streamed(chunks, threw) =>
      var tail := if threw then [ConnectionError] else [];
      NoEmptyAppend(Drain("", chunks, parse).deltas, tail);
      Drain("", chunks, parse).deltas + tail
  }

  /** The hook's state: the message list and the loading flag. */
  class ChatHook {
    var messages: seq<Message>
    var isLoading: bool

    constructor ()
      ensures messages == [] && !isLoading
    {
      messages := [];
      isLoading := false;
    }

    /** `setMessages`, used by the page to restore a saved conversation. */
    method SetMessages(ms: seq<Message>)
      modifies this
      ensures messages == ms && isLoading == old(isLoading)
    {
      messages := ms;
    }

    /** `reset`. */
    method Reset()
      modifies this
      ensures messages == [] && isLoading == old(isLoading)
    {
      messages := [];
    }

    /**
     * `send`: one chat turn. Returns the request body it posts; the reply
     * of the endpoint and JSON.parse are the oracles `reply` and `parse`.
     */
    method Send(mode: Mode, content: string, images: seq<string>, ocrResults: seq<OcrResult>,
                reply: Reply, parse: string -> Parsed)
      returns (request: ChatRequest)
      modifies this
      ensures request == BuildRequest(old(messages) + [UserMessage(content, images, ocrResults)], mode)
      ensures messages == Transcript(old(messages) + [UserMessage(content, images, ocrResults)], TurnUpserts(reply, parse))
      ensures !isLoading
    {
      var history := messages + [UserMessage(content, images, ocrResults)];
      messages := history;
      isLoading := true;
      request := BuildRequest(history, mode);
      var assistantSoFar := "";
      ghost var upserts: seq<string> := [];

      match reply {
        case FetchThrew =>
          upserts, assistantSoFar := Upsert(history, upserts, assistantSoFar, ConnectionError);
          assert upserts == [ConnectionError];
        case NotOk(body) =>
          upserts, assistantSoFar := Upsert(history, upserts, assistantSoFar, ErrorNotice(body));
          assert upserts == [ErrorNotice(body)];
        case Streamed(chunks, threw) =>
          var buffer := "";
          var i := 0;
          while i < |chunks|
            invariant 0 <= i <= |chunks|
            invariant assistantSoFar == Concat(upserts)
            invariant messages == Transcript(history, upserts)
            invariant upserts + Drain(buffer, chunks[i..], parse).deltas == Drain("", chunks, parse).deltas
          {
            DrainStep(buffer, chunks, i, parse);
            ghost var before, first := upserts, ScanBuffer(buffer + chunks[i], parse);
            buffer, upserts, assistantSoFar := ScanLines(history, buffer + chunks[i], upserts, assistantSoFar, parse);
            AppendAssoc(before, first.deltas, Drain(buffer, chunks[i + 1..], parse).deltas);
            i := i + 1;
          }
          assert chunks[i..] == [];
          assert upserts == Drain("", chunks, parse).deltas;
          if threw {
            upserts, assistantSoFar := Upsert(history, upserts, assistantSoFar, ConnectionError);
          }
      }
      isLoading := false;
    }

    /**
     * The inner loop of `send`: consume the complete lines of `buffer` and
     * return what is left for the next read.
     */
    method ScanLines(history: seq<Message>, buffer: string, ghost upserts: seq<string>, soFar: string, parse: string -> Parsed)
      returns (rest: string, ghost upserts': seq<string>, soFar': string)
      requires |history| > 0 && history[|history| - 1].role == User
      requires soFar == Concat(upserts) && messages == Transcript(history, upserts)
      modifies this
      ensures upserts' == upserts + ScanBuffer(buffer, parse).deltas && rest == ScanBuffer(buffer, parse).rest
      ensures soFar' == Concat(upserts') && messages == Transcript(history, upserts')
      ensures isLoading == old(isLoading)
    {
      ghost var goal := ScanBuffer(buffer, parse);
      rest, upserts', soFar' := buffer, upserts, soFar;
      var more := true;
      while more
        invariant soFar' == Concat(upserts') && messages == Transcript(history, upserts')
        invariant more ==> upserts' + ScanBuffer(rest, parse).deltas == upserts + goal.deltas
        invariant more ==> ScanBuffer(rest, parse).rest == goal.rest
        invariant !more ==> upserts' == upserts + goal.deltas && rest == goal.rest
        invariant isLoading == old(isLoading)
        decreases if more then |rest| + 1 else 0
      {
        ghost var before, emitted := upserts', [];
        more, rest, upserts', emitted, soFar' := NextLine(history, rest, upserts', soFar', parse);
        if more {
          AppendAssoc(before, emitted, ScanBuffer(rest, parse).deltas);
        }
      }
    }

    /**
     * One pass of that loop: cut the first line off `buffer` and act on it.
     * `more` is false when the loop stops (no complete line, `[DONE]`, or a
     * line that does not parse, which is put back).
     */
    method NextLine(history: seq<Message>, buffer: string, ghost upserts: seq<string>, soFar: string, parse: string -> Parsed)
      returns (more: bool, rest: string, ghost upserts': seq<string>, ghost emitted: seq<string>, soFar': string)
      requires |history| > 0 && history[|history| - 1].role == User
      requires soFar == Concat(upserts) && messages == Transcript(history, upserts)
      modifies this
      ensures soFar' == Concat(upserts') && messages == Transcript(history, upserts')
      ensures upserts' == upserts + emitted
      ensures Step(more, rest, emitted) == LineStep(buffer, parse)
      ensures isLoading == old(isLoading)
    {
      upserts', emitted, soFar' := upserts, [], soFar;
      assert upserts' == upserts + emitted;
      var idx := IndexOf(buffer, '\n');
      if idx < 0 {
        return false, buffer, upserts', emitted, soFar';
      }
      var line := StripCR(buffer[..idx]);
      rest := buffer[idx + 1..];
      match Classify(line, parse) {
        case NotData =>
          more := true;
        case DoneMarker =>
          more := false;
        case Malformed =>
          more, rest := false, line + "\n" + rest;
        case Delta(c) =>
          if c != "" {
            upserts', soFar' := Upsert(history, upserts', soFar', c);
            emitted := [c];
          } else {
            assert upserts' == upserts + [];
          }
          more := true;
      }
    }

    /**
     * `upsert`: add `chunk` to the answer so far and show it as the
     * trailing assistant message.
     */
    method Upsert(history: seq<Message>, ghost upserts: seq<string>, soFar: string, chunk: string)
      returns (ghost upserts': seq<string>, soFar': string)
      requires |history| > 0 && history[|history| - 1].role == User
      requires soFar == Concat(upserts) && messages == Transcript(history, upserts)
      modifies this
      ensures upserts' == upserts + [chunk] && soFar' == soFar + chunk
      ensures soFar' == Concat(upserts') && messages == Transcript(history, upserts')
      ensures isLoading == old(isLoading)
    {
      UpsertStep(history, upserts, chunk);
      soFar' := soFar + chunk;
      messages := Upserted(messages, soFar');
      upserts' := upserts + [chunk];
    }
  }
}
