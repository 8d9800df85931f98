/**
 * The attachment tray of the chat inputs: the pending images of
 * CenteredChatInput, FuturisticChatInput (without OCR) and of
 * EnhancedChatInput, FloatingChatInput, UltraFloatingChatInput (with OCR),
 * which share one model, and the single image slot of ChatInput.
 *
 * A file selection is a list of file names with the ids
 * (`crypto.randomUUID`) and object URLs (`URL.createObjectURL`) made for
 * them; a finished FileReader read and a finished OCR run are method calls
 * of their own.
 */
module AttachmentTray {
  import opened Js
  import Ocr

  /** The largest selection accepted at once. */
  const MaxSelection: nat := 25

  /** One pending image. Trays without OCR leave the last two fields at None and false. */
  datatype ImagePreview = ImagePreview(
    id: string,
    url: string,
    base64: string,              // "" until the file is read
    name: string,
    ocrResult: Option<Ocr.OcrResult>,
    isProcessingOcr: bool)

  /** What a submit hands to `onSend`: the trimmed text, the images' data and the OCR results. */
  datatype Submission = Submission(text: string, images: seq<string>, ocrResults: seq<Ocr.OcrResult>)

  /** The previews a selection adds, in selection order, not yet read. */
  function NewPreviews(names: seq<string>, ids: seq<string>, urls: seq<string>): (r: seq<ImagePreview>)
    requires |ids| == |names| && |urls| == |names|
    ensures |r| == |names|
    ensures forall i :: 0 <= i < |names| ==> r[i] == ImagePreview(ids[i], urls[i], "", names[i], None, false)
  {
    seq(|names|, i requires 0 <= i < |names| => ImagePreview(ids[i], urls[i], "", names[i], None, false))
  }

  /** `prev.map(img => img.id === id ? { ...img, base64 } : img)`. */
  function WithBase64(images: seq<ImagePreview>, id: string, base64: string): (r: seq<ImagePreview>)
    ensures |r| == |images|
    ensures forall i :: 0 <= i < |images| && images[i].id != id ==> r[i] == images[i]
    ensures forall i :: 0 <= i < |images| && images[i].id == id ==> r[i] == images[i].(base64 := base64)
  {
    seq(|images|, i requires 0 <= i < |images| => if images[i].id == id then images[i].(base64 := base64) else images[i])
  }

  /** The entries with `id` marked as being recognised. */
  function WithProcessing(images: seq<ImagePreview>, id: string): (r: seq<ImagePreview>)
    ensures |r| == |images|
    ensures forall i :: 0 <= i < |images| && images[i].id != id ==> r[i] == images[i]
    ensures forall i :: 0 <= i < |images| && images[i].id == id ==> r[i] == images[i].(isProcessingOcr := true)
  {
    seq(|images|, i requires 0 <= i < |images| => if images[i].id == id then images[i].(isProcessingOcr := true) else images[i])
  }

  /** The entries with `id` after recognition ended: the result kept on success, the flag cleared. */
  function WithOcrOutcome(images: seq<ImagePreview>, id: string, outcome: Result<Ocr.OcrResult, string>): (r: seq<ImagePreview>)
    ensures |r| == |images|
    ensures forall i :: 0 <= i < |images| && images[i].id != id ==> r[i] == images[i]
    ensures forall i :: 0 <= i < |images| && images[i].id == id ==>
              && !r[i].isProcessingOcr
              && r[i].ocrResult == (if outcome.Ok? then Some(outcome.value) else images[i].ocrResult)
              && r[i].(ocrResult := images[i].ocrResult, isProcessingOcr := images[i].isProcessingOcr) == images[i]
  {
    seq(|images|, i requires 0 <= i < |images| =>
      if images[i].id != id then images[i]
      else if outcome.Ok? then images[i].(ocrResult := Some(outcome.value), isProcessingOcr := false)
      else images[i].(isProcessingOcr := false))
  }

  /** `prev.filter(img => img.id !== id)`. */
  function WithoutImage(images: seq<ImagePreview>, id: string): (r: seq<ImagePreview>)
    ensures forall p :: p in r <==> p in images && p.id != id
    ensures |r| <= |images|
  {
    if images == [] then []
    else (if images[0].id != id then [images[0]] else []) + WithoutImage(images[1..], id)
  }

  /** Removal keeps the remaining images in their order. */
  lemma {:induction false} WithoutImageAppend(a: seq<ImagePreview>, b: seq<ImagePreview>, id: string)
    ensures WithoutImage(a + b, id) == WithoutImage(a, id) + WithoutImage(b, id)
  {
    if a == [] {
      assert a + b == b;
    } else {
      assert (a + b)[1..] == a[1..] + b;
      WithoutImageAppend(a[1..], b, id);
    }
  }

  lemma {:induction false} WithoutAbsentImage(images: seq<ImagePreview>, id: string)
    requires forall i :: 0 <= i < |images| ==> images[i].id != id
    ensures WithoutImage(images, id) == images
  {
    if images != [] {
      WithoutAbsentImage(images[1..], id);
    }
  }

  /** Removing a just-added image undoes the addition when its id was new. */
  lemma {:induction false} RemoveUndoesAdd(images: seq<ImagePreview>, p: ImagePreview)
    requires forall i :: 0 <= i < |images| ==> images[i].id != p.id
    ensures WithoutImage(images + [p], p.id) == images
  {
    WithoutImageAppend(images, [p], p.id);
    WithoutAbsentImage(images, p.id);
    assert WithoutImage([p], p.id) == [] by {
      assert [p][1..] == [];
    }
  }

  /** A read that completes after its image was removed changes nothing. */
  lemma {:induction false} LateReadIsHarmless(images: seq<ImagePreview>, id: string, base64: string)
    requires forall i :: 0 <= i < |images| ==> images[i].id != id
    ensures WithBase64(images, id, base64) == images
  {
  }

  /** `images.map(img => img.base64).filter(Boolean)`. */
  function ReadImages(images: seq<ImagePreview>): (r: seq<string>)
    ensures forall k :: 0 <= k < |r| ==> r[k] != ""
    ensures forall s :: s in r <==> s != "" && exists i :: 0 <= i < |images| && images[i].base64 == s
    ensures |r| <= |images|
  {
    if images == [] then []
    else
      var rest := ReadImages(images[1..]);
      assert forall i :: 1 <= i < |images| ==> images[i] == images[1..][i - 1];
      (if images[0].base64 != "" then [images[0].base64] else []) + rest
  }

  /** `images.map(img => img.ocrResult).filter(Boolean)`. */
  function PresentOcrResults(images: seq<ImagePreview>): (r: seq<Ocr.OcrResult>)
    ensures |r| <= |images|
    ensures (forall i :: 0 <= i < |images| ==> images[i].ocrResult.None?) ==> r == []
  {
    if images == [] then []
    else (if images[0].ocrResult.Some? then [images[0].ocrResult.value] else []) + PresentOcrResults(images[1..])
  }

  lemma {:induction false} ReadImagesAppend(a: seq<ImagePreview>, b: seq<ImagePreview>)
    ensures ReadImages(a + b) == ReadImages(a) + ReadImages(b)
  {
    if a == [] {
      assert a + b == b;
    } else {
      assert (a + b)[1..] == a[1..] + b;
      ReadImagesAppend(a[1..], b);
    }
  }

  /**
   * Every image read before the submit is sent, in tray order: once each
   * image has its data, the submission carries all of it.
   */
  lemma {:induction false} AllReadAllSent(images: seq<ImagePreview>)
    requires forall i :: 0 <= i < |images| ==> images[i].base64 != ""
    ensures ReadImages(images) == seq(|images|, i requires 0 <= i < |images| => images[i].base64)
  {
    if images != [] {
      AllReadAllSent(images[1..]);
    }
  }

  /** The outcome of a submit: nothing when loading or when there is neither text nor image. */
  function SubmitOutcome(input: string, images: seq<ImagePreview>, isLoading: bool): (s: Option<Submission>)
    ensures s.None? <==> (Trim(input) == "" && |images| == 0) || isLoading
    ensures s.Some? ==> s.value.text == Trim(input) && s.value.images == ReadImages(images)
                        && s.value.ocrResults == PresentOcrResults(images)
  {
    if (Trim(input) == "" && |images| == 0) || isLoading then None
    else Some(Submission(Trim(input), ReadImages(images), PresentOcrResults(images)))
  }

  /** Enter without Shift submits; every other key leaves the input alone. */
  predicate SubmitsOnKey(key: string, shiftKey: bool) {
    key == "Enter" && !shiftKey
  }

  /** The multi-image tray; `ocrEnabled` marks the variants that recognise text in each image. */
  class ImageTray {
    const ocrEnabled: bool
    var input: string
    var images: seq<ImagePreview>

    constructor (ocrEnabled: bool)
      ensures this.ocrEnabled == ocrEnabled && input == "" && images == []
    {
      this.ocrEnabled := ocrEnabled;
      input := "";
      images := [];
    }

    /** The text area's change handler. */
    method SetInput(text: string)
      modifies this
      ensures input == text && images == old(images)
    {
      input := text;
    }

    /**
     * `handleImageUpload`: an empty selection does nothing; a selection of
     * more than 25 files is refused whole (`alerted`); otherwise its files
     * are appended, unread, in selection order. The limit is per
     * selection, not on the tray.
     */
    method HandleImageUpload(names: seq<string>, ids: seq<string>, urls: seq<string>) returns (alerted: bool)
      requires |ids| == |names| && |urls| == |names|
      modifies this
      ensures alerted <==> |names| > MaxSelection
      ensures 0 < |names| <= MaxSelection ==> images == old(images) + NewPreviews(names, ids, urls)
      ensures !(0 < |names| <= MaxSelection) ==> images == old(images)
      ensures input == old(input)
    {
      if |names| == 0 {
        return false;
      }
      if |names| > MaxSelection {
        return true;
      }
      var newImages := NewPreviews(names, ids, urls);
      images := images + newImages;
      alerted := false;
    }

    /**
     * A FileReader finished: the entry with `id` gets its data; with OCR
     * the entry is also marked as being recognised (`processOCR`'s first
     * update).
     */
    method ReadComplete(id: string, base64: string)
      modifies this
      ensures !ocrEnabled ==> images == WithBase64(old(images), id, base64)
      ensures ocrEnabled ==> images == WithProcessing(WithBase64(old(images), id, base64), id)
      ensures input == old(input)
    {
      images := WithBase64(images, id, base64);
      if ocrEnabled {
        images := WithProcessing(images, id);
      }
    }

    /**
     * Recognition of image `id` ended (`processOCR` after its await): a
     * result is stored on success; the flag is cleared either way. QCM
     * detection on the text changes no state.
     */
    method FinishOcr(id: string, outcome: Result<Ocr.OcrResult, string>)
      requires ocrEnabled
      modifies this
      ensures images == WithOcrOutcome(old(images), id, outcome)
      ensures input == old(input)
    {
      images := WithOcrOutcome(images, id, outcome);
    }

    /** `removeImage`: drop the entries with `id`, keeping the others in order. */
    method RemoveImage(id: string)
      modifies this
      ensures images == WithoutImage(old(images), id)
      ensures input == old(input)
    {
      images := WithoutImage(images, id);
    }

    /** `handleSubmit`: when allowed, hand over text, data and OCR results, then clear the input and the tray. */
    method HandleSubmit(isLoading: bool) returns (sent: Option<Submission>)
      modifies this
      ensures sent == SubmitOutcome(old(input), old(images), isLoading)
      ensures sent.None? ==> input == old(input) && images == old(images)
      ensures sent.Some? ==> input == "" && images == []
    {
      if (Trim(input) == "" && |images| == 0) || isLoading {
        return None;
      }
      var imageBase64s := ReadImages(images);
      var ocrResults := PresentOcrResults(images);
      sent := Some(Submission(Trim(input), imageBase64s, ocrResults));
      input := "";
      images := [];
    }

    /** `handleKeyDown`: Enter without Shift submits. */
    method HandleKeyDown(key: string, shiftKey: bool, isLoading: bool) returns (sent: Option<Submission>)
      modifies this
      ensures SubmitsOnKey(key, shiftKey) ==> sent == SubmitOutcome(old(input), old(images), isLoading)
      ensures !SubmitsOnKey(key, shiftKey) ==> sent.None? && input == old(input) && images == old(images)
      ensures sent.Some? ==> input == "" && images == []
      ensures sent.None? ==> input == old(input) && images == old(images)
    {
      sent := None;
      if key == "Enter" && !shiftKey {
        sent := HandleSubmit(isLoading);
      }
    }
  }

  /** Recognition changes no image data: what a submit sends is the same before and after it. */
  lemma {:induction false} OcrKeepsImageData(images: seq<ImagePreview>, id: string, outcome: Result<Ocr.OcrResult, string>)
    ensures ReadImages(WithOcrOutcome(images, id, outcome)) == ReadImages(images)
  {
    if images != [] {
      OcrKeepsImageData(images[1..], id, outcome);
      assert WithOcrOutcome(images, id, outcome)[1..] == WithOcrOutcome(images[1..], id, outcome);
    }
  }

  /** Marking an image as being recognised changes no image data either. */
  lemma {:induction false} ProcessingKeepsImageData(images: seq<ImagePreview>, id: string)
    ensures ReadImages(WithProcessing(images, id)) == ReadImages(images)
  {
    if images != [] {
      ProcessingKeepsImageData(images[1..], id);
      assert WithProcessing(images, id)[1..] == WithProcessing(images[1..], id);
    }
  }

  /**
   * A successful recognition of the only image with `id` puts its result
   * into the next submission, in that image's place among the results.
   */
  lemma {:induction false} OcrResultIsSent(a: seq<ImagePreview>, p: ImagePreview, b: seq<ImagePreview>, result: Ocr.OcrResult)
    requires forall i :: 0 <= i < |a| ==> a[i].id != p.id
    requires forall i :: 0 <= i < |b| ==> b[i].id != p.id
    ensures PresentOcrResults(WithOcrOutcome(a + [p] + b, p.id, Ok(result)))
            == PresentOcrResults(a) + [result] + PresentOcrResults(b)
  {
    var w := WithOcrOutcome(a + [p] + b, p.id, Ok(result));
    assert w == a + [p.(ocrResult := Some(result), isProcessingOcr := false)] + b;
    PresentOcrAppend(a + [p.(ocrResult := Some(result), isProcessingOcr := false)], b);
    PresentOcrAppend(a, [p.(ocrResult := Some(result), isProcessingOcr := false)]);
    assert [p.(ocrResult := Some(result), isProcessingOcr := false)][1..] == [];
  }

  lemma {:induction false} PresentOcrAppend(a: seq<ImagePreview>, b: seq<ImagePreview>)
    ensures PresentOcrResults(a + b) == PresentOcrResults(a) + PresentOcrResults(b)
  {
    if a == [] {
      assert a + b == b;
    } else {
      assert (a + b)[0] == a[0] && (a + b)[1..] == a[1..] + b;
      PresentOcrAppend(a[1..], b);
      var head := if a[0].ocrResult.Some? then [a[0].ocrResult.value] else [];
      assert PresentOcrResults(a) == head + PresentOcrResults(a[1..]);
      assert PresentOcrResults(a + b) == head + PresentOcrResults(a[1..] + b);
    }
  }

  /** The single image slot of ChatInput.tsx. */
  class SingleImageInput {
    var input: string
    var imagePreview: Option<string>
    var imageBase64: Option<string>

    /** The preview always shows the image that would be sent. */
    predicate Valid()
      reads this
    {
      imagePreview == imageBase64
    }

    constructor ()
      ensures Valid() && input == "" && imageBase64 == None
    {
      input := "";
      imagePreview := None;
      imageBase64 := None;
    }

    method SetInput(text: string)
      modifies this
      ensures input == text && imagePreview == old(imagePreview) && imageBase64 == old(imageBase64)
    {
      input := text;
    }

    /** The read of a chosen file finished: its data URL replaces any previous image, in preview and data alike. */
    method ReadComplete(result: string)
      modifies this
      ensures Valid() && imageBase64 == Some(result) && input == old(input)
    {
      imagePreview := Some(result);
      imageBase64 := Some(result);
    }

    /** The remove button: preview and data are both cleared. */
    method RemoveImage()
      modifies this
      ensures Valid() && imageBase64 == None && input == old(input)
    {
      imagePreview := None;
      imageBase64 := None;
    }

    /** The data sent with a message: the image when present and non-empty. */
    function Attached(): (a: Option<string>)
      reads this
      ensures a.Some? <==> imageBase64.Some? && imageBase64.value != ""
      ensures a.Some? ==> a == imageBase64
    {
      if imageBase64.Some? && imageBase64.value != "" then imageBase64 else None
    }

    /**
     * `handleSubmit`: nothing when loading or when there is neither text
     * nor image; otherwise send the trimmed text and the image, and clear
     * everything.
     */
    method HandleSubmit(isLoading: bool) returns (sent: Option<(string, Option<string>)>)
      requires Valid()
      modifies this
      ensures Valid()
      ensures sent.None? <==> (Trim(old(input)) == "" && old(Attached()).None?) || isLoading
      ensures sent.Some? ==> sent.value == (Trim(old(input)), old(Attached())) && input == "" && imageBase64 == None
      ensures sent.None? ==> input == old(input) && imageBase64 == old(imageBase64)
    {
      if (Trim(input) == "" && Attached().None?) || isLoading {
        return None;
      }
      sent := Some((Trim(input), Attached()));
      input := "";
      imagePreview := None;
      imageBase64 := None;
    }

    /** `handleKeyDown`: Enter without Shift submits. */
    method HandleKeyDown(key: string, shiftKey: bool, isLoading: bool) returns (sent: Option<(string, Option<string>)>)
      requires Valid()
      modifies this
      ensures Valid()
      ensures !SubmitsOnKey(key, shiftKey) ==> sent.None? && input == old(input) && imageBase64 == old(imageBase64)
      ensures SubmitsOnKey(key, shiftKey) ==>
                (sent.None? <==> (Trim(old(input)) == "" && old(Attached()).None?) || isLoading)
      ensures sent.Some? ==> sent.value == (Trim(old(input)), old(Attached())) && input == "" && imageBase64 == None
    {
      sent := None;
      if key == "Enter" && !shiftKey {
        sent := HandleSubmit(isLoading);
      }
    }
  }
}
