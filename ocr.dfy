/**
 * The OCR helper service of src/lib/ocr.ts: a lazily created singleton
 * around one Tesseract worker, per-image recognition with numbered results,
 * multiple-choice (QCM) detection and question splitting.
 *
 * Tesseract's `recognize` is an oracle `recognize: string -> Option<OcrResult>`
 * (None when it throws); the regular expressions are written out as
 * character-level predicates with the regex engine's own semantics.
 */
module Ocr {
  import opened Js

  /** What OCR yields for one image: its text and Tesseract's confidence (taken as an integer). */
  datatype OcrResult = OcrResult(text: string, confidence: int)

  /** The single message a recognition failure surfaces as. */
  const ExtractionError: string := "Erreur lors de l'extraction du texte de l'image"

  /** The text that stands in for an image whose recognition failed. */
  const OcrPlaceholder: string := "[Erreur d'OCR]"

  /** `Question ${i + 1}:\n` for the image at 0-based index `i`. */
  function QuestionLabel(i: nat): string {
    "Question " + NatToString(i + 1) + ":\n"
  }

  /** Labels of different images differ, so numbered results are never confused. */
  lemma {:induction false} QuestionLabelInjective(i: nat, j: nat)
    requires QuestionLabel(i) == QuestionLabel(j)
    ensures i == j
  {
    var a, b := NatToString(i + 1), NatToString(j + 1);
    assert "Question " + a + ":\n" == "Question " + (a + ":\n");
    assert "Question " + b + ":\n" == "Question " + (b + ":\n");
    assert a + ":\n" == b + ":\n" by {
      assert ("Question " + (a + ":\n"))[9..] == a + ":\n";
      assert ("Question " + (b + ":\n"))[9..] == b + ":\n";
    }
    assert |a| == |b|;
    assert a == (a + ":\n")[..|a|] == (b + ":\n")[..|b|] == b;
    NatToStringInjective(i + 1, j + 1);
  }

  /** The result reported for the image at index `i`, given what recognition did with it. */
  function Numbered(i: nat, recognised: Option<OcrResult>): (r: OcrResult)
    ensures QuestionLabel(i) <= r.text
  {
    match recognised
    case Some(x) => OcrResult(QuestionLabel(i) + x.text, x.confidence)
    case None => OcrResult(QuestionLabel(i) + OcrPlaceholder, 0)
  }

  /** Recognition as the service sees it: `recognize` when a worker is available, a failure for every image otherwise. */
  function Recognizer(available: bool, recognize: string -> Option<OcrResult>): string -> Option<OcrResult> {
    if available then recognize else (_ => None)
  }

  /** The results `extractTextFromMultipleImages` returns, built image by image. */
  function NumberedResults(images: seq<string>, recognize: string -> Option<OcrResult>): (rs: seq<OcrResult>)
    ensures |rs| == |images|
    ensures forall i :: 0 <= i < |images| ==> rs[i] == Numbered(i, recognize(images[i]))
  {
    if images == [] then []
    else
      var n := |images| - 1;
      NumberedResults(images[..n], recognize) + [Numbered(n, recognize(images[n]))]
  }

  /**
   * Exactly one result per image, in order: a recognised image keeps its
   * confidence and gets its label before the text; a failed one gets the
   * placeholder and confidence 0; and no two results carry the same label.
   */
  lemma {:induction false} NumberedResultsMeaning(images: seq<string>, recognize: string -> Option<OcrResult>, i: nat, j: nat)
    requires i < |images| && j < |images| && i != j
    ensures var rs := NumberedResults(images, recognize);
            && (recognize(images[i]).Some? ==>
                  rs[i].text == QuestionLabel(i) + recognize(images[i]).value.text
                  && rs[i].confidence == recognize(images[i]).value.confidence)
            && (recognize(images[i]).None? ==>
                  rs[i].text == QuestionLabel(i) + OcrPlaceholder && rs[i].confidence == 0)
            && rs[i].text[..|QuestionLabel(i)|] != rs[j].text[..|QuestionLabel(j)|]
  {
    var rs := NumberedResults(images, recognize);
    if rs[i].text[..|QuestionLabel(i)|] == rs[j].text[..|QuestionLabel(j)|] {
      QuestionLabelInjective(i, j);
    }
  }

  /** The OCR service: at most one Tesseract worker, created on demand. */
  class OcrService {
    /** The current worker, None for `null`. Workers are numbered in creation order. */
    var worker: Option<nat>
    /** The number of workers created so far; the next one gets this number. */
    var created: nat
    /** The workers terminated so far, in order. */
    ghost var terminated: seq<nat>

    constructor ()
      ensures worker == None && created == 0 && terminated == []
    {
      worker := None;
      created := 0;
      terminated := [];
    }

    /**
     * `initializeWorker`: create a worker when there is none. `rejection`
     * is what `Tesseract.createWorker` does: None when it resolves, Some(e)
     * when it rejects with `e`, which is passed on and leaves no worker.
     */
    method InitializeWorker(rejection: Option<string>) returns (failure: Option<string>)
      modifies this
      ensures old(worker).Some? ==> failure == None && worker == old(worker) && created == old(created)
      ensures old(worker).None? && rejection.None? ==>
                failure == None && worker == Some(old(created)) && created == old(created) + 1
      ensures old(worker).None? && rejection.Some? ==>
                failure == rejection && worker == None && created == old(created)
      ensures terminated == old(terminated)
    {
      failure := None;
      if worker.None? {
        if rejection.Some? {
          failure := rejection;
        } else {
          worker := Some(created);
          created := created + 1;
        }
      }
    }

    /**
     * `extractTextFromImage`: recognise one image, failing with the fixed
     * message; a failure to create the worker happens before the `try` and
     * propagates with its own error.
     */
    method ExtractTextFromImage(image: string, rejection: Option<string>, recognize: string -> Option<OcrResult>)
      returns (r: Result<OcrResult, string>)
      modifies this
      ensures old(worker).None? && rejection.Some? ==>
                r == Err(rejection.value) && worker == None && created == old(created)
      ensures old(worker).Some? || rejection.None? ==>
                && r == (if recognize(image).Some? then Ok(recognize(image).value) else Err(ExtractionError))
                && worker.Some? && (old(worker).Some? ==> worker == old(worker))
                && created == old(created) + (if old(worker).None? then 1 else 0)
      ensures terminated == old(terminated)
    {
      var failure := InitializeWorker(rejection);
      if failure.Some? {
        return Err(failure.value);
      }
      match recognize(image) {
        case Some(data) => r := Ok(data);
        case None => r := Err(ExtractionError);
      }
    }

    /**
     * `extractTextFromMultipleImages`: one numbered result per image, a
     * placeholder on failure. When no worker exists and creating one is
     * rejected, every image fails and no worker is left.
     */
    method ExtractTextFromMultipleImages(images: seq<string>, rejection: Option<string>,
                                         recognize: string -> Option<OcrResult>)
      returns (results: seq<OcrResult>)
      modifies this
      ensures results == NumberedResults(images, Recognizer(old(worker).Some? || rejection.None?, recognize))
      ensures images == [] || (old(worker).None? && rejection.Some?) ==> worker == old(worker) && created == old(created)
      ensures images != [] && (old(worker).Some? || rejection.None?) ==>
                worker.Some? && (old(worker).Some? ==> worker == old(worker))
      ensures created <= old(created) + 1
      ensures terminated == old(terminated)
    {
      ghost var available := old(worker).Some? || rejection.None?;
      results := [];
      for i := 0 to |images|
        invariant results == NumberedResults(images[..i], Recognizer(available, recognize))
        invariant i == 0 || !available ==> worker == old(worker) && created == old(created)
        invariant i > 0 && available ==> worker.Some? && (old(worker).Some? ==> worker == old(worker))
        invariant created <= old(created) + 1
        invariant worker.Some? && old(worker).None? ==> created == old(created) + 1
        invariant terminated == old(terminated)
      {
        var r := ExtractTextFromImage(images[i], rejection, recognize);
        match r {
          case Ok(data) =>
            results := results + [OcrResult(QuestionLabel(i) + data.text, data.confidence)];
          case Err(_) =>
            results := results + [OcrResult(QuestionLabel(i) + OcrPlaceholder, 0)];
        }
        assert images[..i + 1][..i] == images[..i];
      }
      assert images[..|images|] == images;
    }

    /** `cleanup`: terminate the worker, if any, and forget it. */
    method Cleanup()
      modifies this
      ensures worker == None && created == old(created)
      ensures terminated == old(terminated) + (if old(worker).Some? then [old(worker).value] else [])
    {
      if worker.Some? {
        terminated := terminated + [worker.value];
        worker := None;
      }
    }
  }

  /** The class-level `instance` slot of OCRService. */
  class OcrServiceSlot {
    var instance: Option<OcrService>

    constructor ()
      ensures instance == None
    {
      instance := None;
    }

    /** `getInstance`: create the service on first use and return the same one ever after. */
    method GetInstance() returns (s: OcrService)
      modifies this
      ensures old(instance).Some? ==> s == old(instance).value
      ensures old(instance).None? ==> fresh(s) && s.worker == None && s.created == 0
      ensures instance == Some(s)
    {
      if instance.None? {
        var service := new OcrService();
        instance := Some(service);
      }
      s := instance.value;
    }
  }

  // ---------------------------------------------------------------------
  // Character classes and runs shared by the patterns below
  // ---------------------------------------------------------------------

  /**
   * Case folding as the regex engine applies it under the `i` flag (without
   * `u`), on the letters the case-insensitive patterns here contain: ASCII
   * letters and é; every other character is left as it is.
   */
  function Fold(c: char): char {
    if 'a' <= c <= 'z' then (c as int - 32) as char
    else if c == 'é' then 'É'
    else c
  }

  /** `a` and `b` are equal up to case. */
  predicate FoldEq(a: string, b: string) {
    |a| == |b| && forall i :: 0 <= i < |a| ==> Fold(a[i]) == Fold(b[i])
  }

  /** The end of the run of decimal digits starting at `i`. */
  function DigitRunEnd(s: string, i: nat): (j: nat)
    requires i <= |s|
    ensures i <= j <= |s|
    ensures j == |s| || !IsDigit(s[j])
    decreases |s| - i
  {
    if i < |s| && IsDigit(s[i]) then DigitRunEnd(s, i + 1) else i
  }

  /** The end of the run of whitespace starting at `i`. */
  function SpaceRunEnd(s: string, i: nat): (j: nat)
    requires i <= |s|
    ensures i <= j <= |s|
    ensures j == |s| || !IsSpace(s[j])
    decreases |s| - i
  {
    if i < |s| && IsSpace(s[i]) then SpaceRunEnd(s, i + 1) else i
  }

  /** Everything a digit run spans is a digit. */
  lemma {:induction false} DigitRunIsDigits(s: string, i: nat)
    requires i <= |s|
    ensures forall k :: i <= k < DigitRunEnd(s, i) ==> IsDigit(s[k])
    decreases |s| - i
  {
    if i < |s| && IsDigit(s[i]) {
      DigitRunIsDigits(s, i + 1);
    }
  }

  /** Everything a whitespace run spans is whitespace. */
  lemma {:induction false} SpaceRunIsSpaces(s: string, i: nat)
    requires i <= |s|
    ensures forall k :: i <= k < SpaceRunEnd(s, i) ==> IsSpace(s[k])
    decreases |s| - i
  {
    if i < |s| && IsSpace(s[i]) {
      SpaceRunIsSpaces(s, i + 1);
    }
  }

  /** `\b` at position `i`: a word character on exactly one side. */
  predicate WordBoundary(s: string, i: nat) {
    (0 < i <= |s| && IsWordChar(s[i - 1])) != (i < |s| && IsWordChar(s[i]))
  }

  predicate IsOptionLetter(c: char) {
    c == 'A' || c == 'B' || c == 'C' || c == 'D'
  }

  // ---------------------------------------------------------------------
  // detectQCMFormat
  // ---------------------------------------------------------------------

  /** `\b[ABCD]` followed by `mark` at `i`: the `A)`, `A.` and `A-` patterns. */
  predicate LetterMarkAt(s: string, i: nat, mark: char) {
    i + 1 < |s| && WordBoundary(s, i) && IsOptionLetter(s[i]) && s[i + 1] == mark
  }

  /** `\b\d+\)\s*[ABCD]\)` at `i`. */
  predicate NumberedOptionAt(s: string, i: nat) {
    i <= |s| && WordBoundary(s, i) &&
    var j := DigitRunEnd(s, i);
    j > i && j < |s| && s[j] == ')' &&
    var k := SpaceRunEnd(s, j + 1);
    k + 1 < |s| && IsOptionLetter(s[k]) && s[k + 1] == ')'
  }

  /** The words of `words`, case-insensitively, separated by `\s+`, starting at `i`. */
  predicate WordsAt(s: string, i: nat, words: seq<string>)
    decreases |words|
  {
    if words == [] then true
    else
      var w := words[0];
      var j := i + |w|;
      j <= |s| && FoldEq(s[i..j], w) &&
      (|words| == 1 || (var k := SpaceRunEnd(s, j); k > j && WordsAt(s, k, words[1..])))
  }

  const QuelleEstLaReponse: seq<string> := ["Quelle", "est", "la", "réponse"]
  const CocherLaBonneReponse: seq<string> := ["Cocher", "la", "bonne", "réponse"]

  /** `\bQuelle\s+est\s+la\s+réponse` (or the Cocher phrase) with the `i` flag, at `i`. */
  predicate PhraseAt(s: string, i: nat, words: seq<string>) {
    i <= |s| && WordBoundary(s, i) && WordsAt(s, i, words)
  }

  /** One of the six QCM patterns matches at position `i`. */
  predicate QcmAt(s: string, i: nat) {
    || LetterMarkAt(s, i, ')')
    || LetterMarkAt(s, i, '.')
    || LetterMarkAt(s, i, '-')
    || NumberedOptionAt(s, i)
    || PhraseAt(s, i, QuelleEstLaReponse)
    || PhraseAt(s, i, CocherLaBonneReponse)
  }

  /** A character some QCM pattern must contain: an option letter, or the Q of "Quelle", up to case. */
  predicate MarkLetter(c: char) {
    IsOptionLetter(Fold(c)) || Fold(c) == 'Q'
  }

  /** Every pattern match contains a mark letter. */
  lemma {:induction false} QcmAtHasMarkLetter(s: string, i: nat)
    requires QcmAt(s, i)
    ensures exists k :: 0 <= k < |s| && MarkLetter(s[k])
  {
    if LetterMarkAt(s, i, ')') || LetterMarkAt(s, i, '.') || LetterMarkAt(s, i, '-') {
      assert MarkLetter(s[i]);
    } else if NumberedOptionAt(s, i) {
      var k := SpaceRunEnd(s, DigitRunEnd(s, i) + 1);
      assert MarkLetter(s[k]);
    } else {
      var w := if PhraseAt(s, i, QuelleEstLaReponse) then "Quelle" else "Cocher";
      assert FoldEq(s[i..i + 6], w);
      assert Fold(s[i..i + 6][0]) == Fold(w[0]);
      assert MarkLetter(s[i]);
    }
  }

  lemma {:induction false} QcmNeedsMarkLetter(text: string)
    ensures (exists i: nat | i <= |text| :: QcmAt(text, i)) ==> exists k :: 0 <= k < |text| && MarkLetter(text[k])
  {
    if exists i: nat | i <= |text| :: QcmAt(text, i) {
      var i: nat :| i <= |text| && QcmAt(text, i);
      QcmAtHasMarkLetter(text, i);
    }
  }

  /**
   * `detectQCMFormat`: some pattern matches somewhere in the text, so a
   * detected text holds an option letter A-D or a Q, up to case.
   */
  predicate DetectQcmFormat(text: string)
    ensures DetectQcmFormat(text) ==> exists k :: 0 <= k < |text| && MarkLetter(text[k])
  {
    QcmNeedsMarkLetter(text);
    exists i: nat | i <= |text| :: QcmAt(text, i)
  }

  /** An option letter starting a word and followed by `)`, `.` or `-` is always detected. */
  lemma {:induction false} OptionMarkDetected(pre: string, c: char, mark: char, post: string)
    requires IsOptionLetter(c) && (mark == ')' || mark == '.' || mark == '-')
    requires pre == [] || !IsWordChar(pre[|pre| - 1])
    ensures DetectQcmFormat(pre + [c, mark] + post)
  {
    var s := pre + [c, mark] + post;
    var i := |pre|;
    assert s[i] == c && s[i + 1] == mark;
    if i > 0 { assert s[i - 1] == pre[|pre| - 1]; }
    assert LetterMarkAt(s, i, mark);
    assert QcmAt(s, i);
  }

  lemma {:induction false} DigitRunEndExtend(s: string, t: string, i: nat)
    requires i <= |s| && DigitRunEnd(s, i) < |s|
    ensures DigitRunEnd(s + t, i) == DigitRunEnd(s, i)
    decreases |s| - i
  {
    if IsDigit(s[i]) {
      DigitRunEndExtend(s, t, i + 1);
    }
  }

  lemma {:induction false} SpaceRunEndExtend(s: string, t: string, i: nat)
    requires i <= |s| && SpaceRunEnd(s, i) < |s|
    ensures SpaceRunEnd(s + t, i) == SpaceRunEnd(s, i)
    decreases |s| - i
  {
    if IsSpace(s[i]) {
      SpaceRunEndExtend(s, t, i + 1);
    }
  }

  /** Every word of a phrase is non-empty. */
  ghost predicate NonEmptyWords(words: seq<string>) {
    forall k :: 0 <= k < |words| ==> |words[k]| > 0
  }

  /** A phrase that matches at `i` ends inside the text, so it starts before its end. */
  lemma {:induction false} WordsAtInside(s: string, i: nat, words: seq<string>)
    requires words != [] && NonEmptyWords(words) && WordsAt(s, i, words)
    ensures i < |s|
  {
  }

  lemma {:induction false} NonEmptyWordsTail(words: seq<string>)
    requires words != [] && NonEmptyWords(words)
    ensures NonEmptyWords(words[1..])
  {
    assert forall m :: 0 <= m < |words| - 1 ==> words[1..][m] == words[m + 1];
  }

  /** A phrase found inside `s` is still found when text is appended. */
  lemma {:induction false} WordsAtExtend(s: string, t: string, i: nat, words: seq<string>)
    requires NonEmptyWords(words)
    requires WordsAt(s, i, words)
    ensures WordsAt(s + t, i, words)
    decreases |words|
  {
    if words != [] {
      var w := words[0];
      var j := i + |w|;
      assert j <= |s| && FoldEq(s[i..j], w);
      assert (s + t)[i..j] == s[i..j];
      if |words| > 1 {
        var k := SpaceRunEnd(s, j);
        assert k > j && WordsAt(s, k, words[1..]);
        NonEmptyWordsTail(words);
        WordsAtInside(s, k, words[1..]);
        SpaceRunEndExtend(s, t, j);
        WordsAtExtend(s, t, k, words[1..]);
      }
    }
  }

  lemma {:induction false} WordBoundaryExtend(s: string, t: string, i: nat)
    requires i < |s|
    ensures WordBoundary(s + t, i) == WordBoundary(s, i)
  {
    assert (s + t)[i] == s[i];
    if 0 < i { assert (s + t)[i - 1] == s[i - 1]; }
  }

  lemma {:induction false} LetterMarkExtend(s: string, t: string, i: nat, mark: char)
    requires LetterMarkAt(s, i, mark)
    ensures LetterMarkAt(s + t, i, mark)
  {
    WordBoundaryExtend(s, t, i);
    assert (s + t)[i] == s[i] && (s + t)[i + 1] == s[i + 1];
  }

  lemma {:induction false} NumberedOptionExtend(s: string, t: string, i: nat)
    requires NumberedOptionAt(s, i)
    ensures NumberedOptionAt(s + t, i)
  {
    var u := s + t;
    WordBoundaryExtend(s, t, i);
    var j := DigitRunEnd(s, i);
    DigitRunEndExtend(s, t, i);
    var k := SpaceRunEnd(s, j + 1);
    SpaceRunEndExtend(s, t, j + 1);
    assert u[j] == s[j] && u[k] == s[k] && u[k + 1] == s[k + 1];
  }

  lemma {:induction false} PhraseExtend(s: string, t: string, i: nat, words: seq<string>)
    requires words != [] && NonEmptyWords(words)
    requires PhraseAt(s, i, words)
    ensures PhraseAt(s + t, i, words)
  {
    WordsAtInside(s, i, words);
    WordBoundaryExtend(s, t, i);
    WordsAtExtend(s, t, i, words);
  }

  lemma {:induction false} PhrasesNonEmpty()
    ensures NonEmptyWords(QuelleEstLaReponse) && NonEmptyWords(CocherLaBonneReponse)
  {
  }

  /** A pattern that matches at `i` still matches there when text is appended. */
  lemma {:induction false} QcmAtExtend(s: string, t: string, i: nat)
    requires QcmAt(s, i)
    ensures QcmAt(s + t, i)
  {
    if LetterMarkAt(s, i, ')') {
      LetterMarkExtend(s, t, i, ')');
    } else if LetterMarkAt(s, i, '.') {
      LetterMarkExtend(s, t, i, '.');
    } else if LetterMarkAt(s, i, '-') {
      LetterMarkExtend(s, t, i, '-');
    } else if NumberedOptionAt(s, i) {
      NumberedOptionExtend(s, t, i);
    } else if PhraseAt(s, i, QuelleEstLaReponse) {
      PhrasesNonEmpty();
      PhraseExtend(s, t, i, QuelleEstLaReponse);
    } else {
      PhrasesNonEmpty();
      PhraseExtend(s, t, i, CocherLaBonneReponse);
    }
  }

  /**
   * Detection only looks at the text around a match: appending text to a
   * text in which a QCM pattern was found never loses the detection.
   */
  lemma {:induction false} DetectQcmFormatExtend(s: string, t: string)
    requires DetectQcmFormat(s)
    ensures DetectQcmFormat(s + t)
  {
    var i: nat :| i <= |s| && QcmAt(s, i);
    QcmAtExtend(s, t, i);
  }

  // ---------------------------------------------------------------------
  // extractQuestions
  // ---------------------------------------------------------------------

  /** The four question delimiters, in the order they are applied. */
  datatype Delimiter =
    | NumberDot      // /\d+\.\s+/g
    | NumberParen    // /\d+\)\s+/g
    | QuestionWord   // /Question\s+\d+/gi
    | QNumber        // /Q\d+\s*[:.]/gi

  const Delimiters: seq<Delimiter> := [NumberDot, NumberParen, QuestionWord, QNumber]

  /**
   * Where a match of `d` that starts exactly at `q` ends, or -1 when `d`
   * does not match there. None of the delimiters can match the empty string.
   */
  function DelimiterEnd(d: Delimiter, s: string, q: nat): (e: int)
    requires q < |s|
    ensures e == -1 || q < e <= |s|
  {
    match d
    case NumberDot =>
      var j := DigitRunEnd(s, q);
      if j > q && j + 1 < |s| && s[j] == '.' && IsSpace(s[j + 1]) then SpaceRunEnd(s, j + 1) else -1
    case NumberParen =>
      var j := DigitRunEnd(s, q);
      if j > q && j + 1 < |s| && s[j] == ')' && IsSpace(s[j + 1]) then SpaceRunEnd(s, j + 1) else -1
    case QuestionWord =>
      if q + 8 <= |s| && FoldEq(s[q..q + 8], "QUESTION") then
        var k := SpaceRunEnd(s, q + 8);
        if k > q + 8 && k < |s| && IsDigit(s[k]) then DigitRunEnd(s, k) else -1
      else -1
    case QNumber =>
      if Fold(s[q]) == 'Q' then
        var j := DigitRunEnd(s, q + 1);
        var k := SpaceRunEnd(s, j);
        if j > q + 1 && k < |s| && (s[k] == ':' || s[k] == '.') then k + 1 else -1
      else -1
  }

  /**
   * `s.split(d)` from piece start `p`, scanning for a match at `q`: the
   * ECMAScript split algorithm for a separator that never matches empty.
   */
  function SplitFrom(s: string, d: Delimiter, p: nat, q: nat): (pieces: seq<string>)
    requires p <= q <= |s|
    ensures |pieces| >= 1
    decreases |s| - q
  {
    if q == |s| then [s[p..]]
    else
      var e := DelimiterEnd(d, s, q);
      if e < 0 then SplitFrom(s, d, p, q + 1)
      else [s[p..q]] + SplitFrom(s, d, e, e)
  }

  /** The first piece begins `s[p..]` and the last piece ends `s`. */
  ghost predicate PiecesEnds(s: string, p: nat, pieces: seq<string>)
    requires p <= |s|
  {
    && pieces != []
    && pieces[0] <= s[p..]
    && |pieces[|pieces| - 1]| <= |s| - p
    && s[|s| - |pieces[|pieces| - 1]|..] == pieces[|pieces| - 1]
  }

  /** Putting the text between `p` and a match at `q` in front of the pieces after the match keeps both ends. */
  lemma {:induction false} PiecesEndsCons(s: string, p: nat, q: nat, e: nat, rest: seq<string>)
    requires p <= q < e <= |s|
    requires PiecesEnds(s, e, rest)
    ensures PiecesEnds(s, p, [s[p..q]] + rest)
  {
    var pieces := [s[p..q]] + rest;
    assert pieces[0] == s[p..q] && s[p..q] == s[p..][..q - p];
    assert pieces[|pieces| - 1] == rest[|rest| - 1];
  }

  /** The pieces from `p` begin with a prefix of `s[p..]` and end with a suffix of `s`. */
  lemma {:induction false} SplitFromEnds(s: string, d: Delimiter, p: nat, q: nat)
    requires p <= q <= |s|
    ensures PiecesEnds(s, p, SplitFrom(s, d, p, q))
    decreases |s| - q
  {
    var pieces := SplitFrom(s, d, p, q);
    if q == |s| {
      assert pieces == [s[p..]];
    } else {
      var e := DelimiterEnd(d, s, q);
      if e < 0 {
        assert pieces == SplitFrom(s, d, p, q + 1);
        SplitFromEnds(s, d, p, q + 1);
      } else {
        var rest := SplitFrom(s, d, e, e);
        assert pieces == [s[p..q]] + rest;
        SplitFromEnds(s, d, e, e);
        PiecesEndsCons(s, p, q, e, rest);
      }
    }
  }

  /**
   * `s.split(d)`: at least one piece; the first is the text before the first
   * match and the last the text after the last match.
   */
  function Split(s: string, d: Delimiter): (pieces: seq<string>)
    ensures |pieces| >= 1
    ensures pieces[0] <= s
    ensures |pieces[|pieces| - 1]| <= |s| && s[|s| - |pieces[|pieces| - 1]|..] == pieces[|pieces| - 1]
  {
    SplitFromEnds(s, d, 0, 0);
    SplitFrom(s, d, 0, 0)
  }

  /** `d` matches nowhere in `s` at or after `q`. */
  predicate NoMatchFrom(s: string, d: Delimiter, q: nat) {
    forall k :: q <= k < |s| ==> DelimiterEnd(d, s, k) == -1
  }

  lemma {:induction false} SplitFromNoMatch(s: string, d: Delimiter, p: nat, q: nat)
    requires p <= q <= |s|
    requires NoMatchFrom(s, d, q)
    ensures SplitFrom(s, d, p, q) == [s[p..]]
    decreases |s| - q
  {
    if q < |s| {
      SplitFromNoMatch(s, d, p, q + 1);
    }
  }

  lemma {:induction false} SplitFromSkip(s: string, d: Delimiter, p: nat, q: nat, m: nat)
    requires p <= q <= m < |s|
    requires forall k :: q <= k < m ==> DelimiterEnd(d, s, k) == -1
    requires DelimiterEnd(d, s, m) >= 0
    ensures SplitFrom(s, d, p, q) == [s[p..m]] + SplitFrom(s, d, DelimiterEnd(d, s, m), DelimiterEnd(d, s, m))
    decreases m - q
  {
    if q < m {
      assert DelimiterEnd(d, s, q) == -1;
      assert SplitFrom(s, d, p, q) == SplitFrom(s, d, p, q + 1);
      SplitFromSkip(s, d, p, q + 1, m);
    }
  }

  /** Without a delimiter, split yields the whole string as its only piece. */
  lemma {:induction false} SplitNoMatch(s: string, d: Delimiter)
    requires NoMatchFrom(s, d, 0)
    ensures Split(s, d) == [s]
  {
    SplitFromNoMatch(s, d, 0, 0);
  }

  /**
   * With a first delimiter at `m`, split yields the text before it as the
   * first piece and at least one more piece, all taken after the delimiter.
   */
  lemma {:induction false} SplitFirstMatch(s: string, d: Delimiter, m: nat)
    requires m < |s| && DelimiterEnd(d, s, m) >= 0
    requires forall k :: 0 <= k < m ==> DelimiterEnd(d, s, k) == -1
    ensures |Split(s, d)| > 1
    ensures Split(s, d)[0] == s[..m]
    ensures Split(s, d)[1..] == SplitFrom(s, d, DelimiterEnd(d, s, m), DelimiterEnd(d, s, m))
  {
    SplitFromSkip(s, d, 0, 0, m);
  }

  function TrimAll(pieces: seq<string>): (r: seq<string>)
    ensures |r| == |pieces|
    ensures forall i :: 0 <= i < |pieces| ==> r[i] == Trim(pieces[i])
  {
    if pieces == [] then [] else [Trim(pieces[0])] + TrimAll(pieces[1..])
  }

  /** What one part becomes under one delimiter. */
  function SplitPart(part: string, d: Delimiter): seq<string> {
    var pieces := Split(part, d);
    if |pieces| > 1 then TrimAll(pieces[1..]) else [part]
  }

  /** One pass of the inner loop over all parts. */
  function SplitParts(parts: seq<string>, d: Delimiter): seq<string> {
    if parts == [] then []
    else SplitParts(parts[..|parts| - 1], d) + SplitPart(parts[|parts| - 1], d)
  }

  /** The parts after applying the delimiters of `ds` in order. */
  function SplitThrough(parts: seq<string>, ds: seq<Delimiter>): seq<string> {
    if ds == [] then parts
    else SplitParts(SplitThrough(parts, ds[..|ds| - 1]), ds[|ds| - 1])
  }

  /** `parts.filter(p => p.length > 10)`, the length counted in UTF-16 code units. */
  function KeepLong(parts: seq<string>): (r: seq<string>)
    ensures forall q :: q in r <==> q in parts && Utf16Length(q) > 10
    ensures |r| <= |parts|
  {
    if parts == [] then []
    else (if Utf16Length(parts[0]) > 10 then [parts[0]] else []) + KeepLong(parts[1..])
  }

  /** The filter keeps the order and the repetitions of the parts it keeps. */
  lemma {:induction false} KeepLongAppend(a: seq<string>, b: seq<string>)
    ensures KeepLong(a + b) == KeepLong(a) + KeepLong(b)
  {
    if a == [] {
      assert a + b == b;
    } else {
      assert (a + b)[1..] == a[1..] + b;
      KeepLongAppend(a[1..], b);
    }
  }

  /**
   * What `extractQuestions` returns: the parts left by the four delimiter
   * passes that are longer than ten code units, in order.
   */
  function Questions(text: string): (qs: seq<string>)
    ensures forall q :: q in qs <==> q in SplitThrough([text], Delimiters) && Utf16Length(q) > 10
  {
    KeepLong(SplitThrough([text], Delimiters))
  }

  lemma {:induction false} SplitThroughNoMatch(text: string, ds: seq<Delimiter>)
    requires forall d :: NoMatchFrom(text, d, 0)
    ensures SplitThrough([text], ds) == [text]
  {
    if ds != [] {
      var d := ds[|ds| - 1];
      SplitThroughNoMatch(text, ds[..|ds| - 1]);
      SplitPartsNoMatch(text, d);
    }
  }

  lemma {:induction false} SplitPartsNoMatch(part: string, d: Delimiter)
    requires NoMatchFrom(part, d, 0)
    ensures SplitParts([part], d) == [part]
  {
    assert SplitPart(part, d) == [part] by {
      SplitNoMatch(part, d);
    }
    assert [part][..0] == [];
    assert SplitParts([part], d) == SplitParts([], d) + SplitPart(part, d);
  }

  /**
   * A text in which no delimiter occurs is a single question: kept whole
   * when it is longer than ten characters, dropped otherwise.
   */
  lemma {:induction false} QuestionsWithoutDelimiter(text: string)
    requires forall d :: NoMatchFrom(text, d, 0)
    ensures Questions(text) == if Utf16Length(text) > 10 then [text] else []
  {
    SplitThroughNoMatch(text, Delimiters);
    assert [text][1..] == [];
  }

  lemma {:induction false} SplitThroughStep(parts: seq<string>, ds: seq<Delimiter>, n: nat)
    requires n < |ds|
    ensures SplitThrough(parts, ds[..n + 1]) == SplitParts(SplitThrough(parts, ds[..n]), ds[n])
  {
    assert ds[..n + 1][..n] == ds[..n];
  }

  lemma {:induction false} SplitPartsStep(parts: seq<string>, m: nat, d: Delimiter)
    requires m < |parts|
    ensures SplitParts(parts[..m + 1], d) == SplitParts(parts[..m], d) + SplitPart(parts[m], d)
  {
    assert parts[..m + 1][..m] == parts[..m];
  }

  /**
   * A part with a delimiter loses the text before the first one: the parts
   * it turns into are the trimmed pieces after it, and there is at least one.
   */
  lemma {:induction false} SplitPartDropsLead(part: string, d: Delimiter, m: nat)
    requires m < |part| && DelimiterEnd(d, part, m) >= 0
    requires forall k :: 0 <= k < m ==> DelimiterEnd(d, part, k) == -1
    ensures var e := DelimiterEnd(d, part, m);
            SplitPart(part, d) == TrimAll(SplitFrom(part, d, e, e))
    ensures |SplitPart(part, d)| >= 1
  {
    SplitFirstMatch(part, d, m);
  }

  /** `extractQuestions`: split by each delimiter in turn, then keep the long parts. */
  method ExtractQuestions(text: string) returns (questions: seq<string>)
    ensures questions == Questions(text)
    ensures forall q :: q in questions ==> Utf16Length(q) > 10
  {
    var parts := [text];
    for n := 0 to |Delimiters|
      invariant parts == SplitThrough([text], Delimiters[..n])
    {
      var delimiter := Delimiters[n];
      var newParts: seq<string> := [];
      for m := 0 to |parts|
        invariant newParts == SplitParts(parts[..m], delimiter)
      {
        SplitPartsStep(parts, m, delimiter);
        var split := Split(parts[m], delimiter);
        if |split| > 1 {
          newParts := newParts + TrimAll(split[1..]);
        } else {
          newParts := newParts + [parts[m]];
        }
      }
      assert parts[..|parts|] == parts;
      SplitThroughStep([text], Delimiters, n);
      parts := newParts;
    }
    assert Delimiters[..|Delimiters|] == Delimiters;
    questions := KeepLong(parts);
  }
}
