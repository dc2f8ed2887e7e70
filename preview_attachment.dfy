/**
 * The derivations of components/preview-attachment.tsx: the document label
 * shown for an attachment, when the PI/Contestação selector and the
 * "text not extracted" hint appear, what the paste fallback confirms, and
 * which select values reach the document-type handler. Whether a handler
 * prop is given is a boolean.
 */
module PreviewAttachment {
  import opened Wrappers
  import opened JsText
  import opened ChatTypes
  import MultimodalInput

  /** `documentLabel` */
  function DocumentLabel(contentType: string): (r: string)
    ensures r == "PDF" <==> contentType == MultimodalInput.PdfMime
    ensures r == "DOC" <==> contentType == MultimodalInput.DocMime
    ensures r == "DOCX" <==> contentType == MultimodalInput.DocxMime
    ensures r == "Arquivo" <==> !MultimodalInput.IsDocumentType(contentType)
  {
    if contentType == MultimodalInput.PdfMime then "PDF"
    else if contentType == MultimodalInput.DocMime then "DOC"
    else if contentType == MultimodalInput.DocxMime then "DOCX"
    else "Arquivo"
  }

  /** `showDocumentTypeSelector` */
  predicate ShowDocumentTypeSelector(a: Attachment, hasTypeHandler: bool) {
    (a.extractedText.Some? || MultimodalInput.IsDocumentType(a.contentType)) && hasTypeHandler
  }

  /** `showExtractionFailedHint` */
  predicate ShowExtractionFailedHint(a: Attachment) {
    a.extractionFailed == Some(true) && MultimodalInput.IsDocumentType(a.contentType)
  }

  /** What appears under the thumbnail about a failed extraction. */
  datatype FailureHint = NoHint | PasteFallback | PasteInMessageHint

  function FailureHintFor(a: Attachment, hasPasteHandler: bool): FailureHint {
    if !ShowExtractionFailedHint(a) then NoHint
    else if hasPasteHandler then PasteFallback
    else PasteInMessageHint
  }

  /**
   * The hint appears only for a PDF/DOC/DOCX whose extraction failed, whose
   * label is then the document kind rather than "Arquivo"; the paste area
   * appears exactly when a paste handler is also given.
   */
  lemma FailureHintIff(a: Attachment, hasPasteHandler: bool)
    ensures FailureHintFor(a, hasPasteHandler) != NoHint <==>
      a.extractionFailed == Some(true) && DocumentLabel(a.contentType) != "Arquivo"
    ensures FailureHintFor(a, hasPasteHandler) == PasteFallback <==>
      hasPasteHandler && a.extractionFailed == Some(true) && MultimodalInput.IsDocumentType(a.contentType)
  {
  }

  /** A PDF/DOC/DOCX the composer would block always offers the type selector when a handler is given. */
  lemma BlockedDocumentShowsSelector(a: Attachment)
    requires MultimodalInput.NeedsText(a)
    ensures ShowDocumentTypeSelector(a, true) && !ShowDocumentTypeSelector(a, false)
    ensures DocumentLabel(a.contentType) in {"PDF", "DOC", "DOCX"}
  {
  }

  /** `PasteTextFallback.handleConfirm`: the trimmed text, passed on only when non-empty. */
  function PasteConfirm(value: string): (r: Option<string>)
    ensures r.Some? ==> r.value == Trim(value) && r.value != ""
  {
    var trimmed := Trim(value);
    if |trimmed| > 0 then Some(trimmed) else None
  }

  /** "Usar este texto" is disabled when the trimmed value is empty. */
  predicate ConfirmDisabled(value: string) {
    |Trim(value)| == 0
  }

  /**
   * The confirm button is enabled exactly when confirming passes text on,
   * which happens exactly when the value has a character other than white
   * space; the text passed on is already trimmed.
   */
  lemma PasteConfirmIff(value: string)
    ensures PasteConfirm(value).Some? <==> !ConfirmDisabled(value)
    ensures PasteConfirm(value).Some? <==> exists i :: 0 <= i < |value| && !IsWhitespace(value[i])
    ensures PasteConfirm(value).Some? ==> Trim(PasteConfirm(value).value) == PasteConfirm(value).value
  {
    TrimEmptyIff(value);
    TrimIdempotent(value);
  }

  /** The `<select>` value shown for a document type: `documentType ?? ""`. */
  function SelectValue(dt: Option<DocumentTypeLabel>): string {
    if dt == Some(Pi) then "pi" else if dt == Some(Contestacao) then "contestacao" else ""
  }

  /** The select's `onChange`: the handler is called only for "pi" or "contestacao". */
  function OnSelect(value: string): (r: Option<DocumentTypeLabel>)
    ensures r.Some? <==> value == "pi" || value == "contestacao"
  {
    MultimodalInput.LabelOf(Some(value))
  }

  /** Choosing the option shown for a type reports that type; "Selecionar tipo" reports nothing. */
  lemma SelectRoundTrip(dt: Option<DocumentTypeLabel>)
    ensures OnSelect(SelectValue(dt)) == dt
  {
    match dt
    case None =>
      assert |SelectValue(dt)| == 0;
    case Some(Pi) =>
    case Some(Contestacao) =>
      assert SelectValue(dt)[0] == 'c';
  }

  /** The image thumbnail is used when the content type starts with "image". */
  predicate ShowsImage(a: Attachment) {
    StartsWith(a.contentType, "image")
  }

  /** The remove button shows when a remove handler is given and nothing is uploading. */
  predicate ShowsRemove(hasRemoveHandler: bool, isUploading: bool) {
    hasRemoveHandler && !isUploading
  }

  /** Every attachment the composer sends as a file part is shown as an image thumbnail. */
  lemma FilePartsShowImages(a: Attachment)
    requires MultimodalInput.AttachmentPart(a).Some? && MultimodalInput.AttachmentPart(a).value.FilePart?
    ensures ShowsImage(a)
  {
    assert a.contentType[..6] == "image/";
    assert a.contentType[..5] == "image/"[..5];
  }
}
