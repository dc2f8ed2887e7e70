/**
 * The composer of components/multimodal-input.tsx: the submit gate and the
 * parts of the message it sends, the upload routing by file size, the
 * attachment built from an upload reply, the sequential `processFiles`, and
 * the per-URL attachment updaters. The composer's React state (input text,
 * attachments, upload queue) is the `Composer` class; `sendMessage` appends
 * to its `outbox`. What the upload endpoints answer is an input; toasts,
 * focus, cookies and local storage are left out.
 */
module MultimodalInput {
  import opened Wrappers
  import opened JsText
  import opened ChatTypes

  const PdfMime: string := "application/pdf"
  const DocMime: string := "application/msword"
  const DocxMime: string := "application/vnd.openxmlformats-officedocument.wordprocessingml.document"

  /** `isDocumentType`: PDF, DOC or DOCX by exact MIME type. */
  predicate IsDocumentType(ct: string) {
    ct == PdfMime || ct == DocMime || ct == DocxMime
  }

  /** A PDF/DOC/DOCX attachment with no extracted text: it blocks the submit. */
  predicate NeedsText(a: Attachment) {
    IsDocumentType(a.contentType) && a.extractedText.None?
  }

  /** `attachments.filter((a) => isDocumentType(a.contentType) && a.extractedText == null)` */
  function DocsWithoutText(atts: seq<Attachment>): (r: seq<Attachment>)
    ensures r == [] <==> forall i :: 0 <= i < |atts| ==> !NeedsText(atts[i])
    ensures |r| <= |atts|
  {
    if atts == [] then []
    else
      var r := DocsWithoutText(atts[..|atts| - 1]);
      assert forall i :: 0 <= i < |atts| - 1 ==> atts[..|atts| - 1][i] == atts[i];
      r + (if NeedsText(atts[|atts| - 1]) then [atts[|atts| - 1]] else [])
  }

  /**
   * The part one attachment contributes: a document part when it has
   * extracted text, a file part when it is a textless image, nothing
   * otherwise.
   */
  function AttachmentPart(a: Attachment): (r: Option<MessagePart>)
    ensures a.extractedText.Some? ==> r == Some(DocumentPart(a.name, a.extractedText.value, a.documentType))
    ensures a.extractedText.None? && StartsWith(a.contentType, "image/") ==> r == Some(FilePart(a.url, a.name, a.contentType))
    ensures r.None? <==> a.extractedText.None? && !StartsWith(a.contentType, "image/")
  {
    if a.extractedText.Some? then Some(DocumentPart(a.name, a.extractedText.value, a.documentType))
    else if StartsWith(a.contentType, "image/") then Some(FilePart(a.url, a.name, a.contentType))
    else None
  }

  /** `attachmentParts` after the loop over `atts`. */
  function AttachmentParts(atts: seq<Attachment>): (r: seq<MessagePart>)
    ensures |r| <= |atts|
  {
    if atts == [] then []
    else
      var p := AttachmentPart(atts[|atts| - 1]);
      AttachmentParts(atts[..|atts| - 1]) + (if p.Some? then [p.value] else [])
  }

  lemma {:induction false} AttachmentPartsAppend(a: seq<Attachment>, b: seq<Attachment>)
    ensures AttachmentParts(a + b) == AttachmentParts(a) + AttachmentParts(b)
    decreases |b|
  {
    if b == [] {
      assert a + b == a;
    } else {
      var n := |b| - 1;
      assert (a + b)[..|a + b| - 1] == a + b[..n];
      AttachmentPartsAppend(a, b[..n]);
    }
  }

  /** The loop of `submitForm` that collects the attachment parts. */
  method BuildAttachmentParts(atts: seq<Attachment>) returns (parts: seq<MessagePart>)
    ensures parts == AttachmentParts(atts)
  {
    parts := [];
    for i := 0 to |atts|
      invariant parts == AttachmentParts(atts[..i])
    {
      var a := atts[i];
      assert atts[..i + 1][..i] == atts[..i];
      if a.extractedText.Some? {
        parts := parts + [DocumentPart(a.name, a.extractedText.value, a.documentType)];
      } else if StartsWith(a.contentType, "image/") {
        parts := parts + [FilePart(a.url, a.name, a.contentType)];
      }
    }
    assert atts[..|atts|] == atts;
  }

  /** The text closing the message when the input is blank. */
  const NoExtraText: string := "(sem texto adicional)"

  /** The parts of the message `submitForm` sends. */
  function MessageParts(atts: seq<Attachment>, input: string): seq<MessagePart> {
    AttachmentParts(atts) + [TextPart(if Trim(input) == "" then NoExtraText else Trim(input))]
  }

  /**
   * The message keeps the attachments' order and ends with exactly one text
   * part: the trimmed input, or the placeholder when the input is blank.
   */
  lemma {:induction false} MessagePartsShape(atts: seq<Attachment>, input: string, extra: Attachment)
    ensures var parts := MessageParts(atts, input);
      && |parts| >= 1
      && parts[|parts| - 1] == TextPart(if Trim(input) == "" then NoExtraText else Trim(input))
      && parts[..|parts| - 1] == AttachmentParts(atts)
    ensures MessageParts(atts + [extra], input)
      == AttachmentParts(atts) + (if AttachmentPart(extra).Some? then [AttachmentPart(extra).value] else [])
         + [TextPart(if Trim(input) == "" then NoExtraText else Trim(input))]
  {
    assert (atts + [extra])[..|atts|] == atts;
  }

  /**
   * Once the submit gate has passed, no PDF/DOC/DOCX attachment is dropped:
   * every one of them becomes a document part carrying its extracted text.
   */
  lemma {:induction false} GatedDocumentsBecomeParts(atts: seq<Attachment>, i: int)
    requires DocsWithoutText(atts) == []
    requires 0 <= i < |atts| && IsDocumentType(atts[i].contentType)
    ensures AttachmentPart(atts[i]) == Some(DocumentPart(atts[i].name, atts[i].extractedText.value, atts[i].documentType))
    ensures AttachmentPart(atts[i]).value in AttachmentParts(atts)
  {
    assert !NeedsText(atts[i]);
    AttachmentPartKept(atts, i);
  }

  /** Whatever part an attachment contributes is in the message, between its neighbours' parts. */
  lemma {:induction false} AttachmentPartKept(atts: seq<Attachment>, i: int)
    requires 0 <= i < |atts| && AttachmentPart(atts[i]).Some?
    ensures AttachmentParts(atts) == AttachmentParts(atts[..i]) + [AttachmentPart(atts[i]).value] + AttachmentParts(atts[i + 1..])
    ensures AttachmentPart(atts[i]).value in AttachmentParts(atts)
  {
    assert atts == atts[..i] + [atts[i]] + atts[i + 1..];
    AttachmentPartsAppend(atts[..i] + [atts[i]], atts[i + 1..]);
    AttachmentPartsAppend(atts[..i], [atts[i]]);
    assert [atts[i]][..0] == [];
  }

  /** `BODY_SIZE_LIMIT_BYTES`: 4.5 MiB. */
  const BodySizeLimitBytes: int := 4718592

  lemma BodySizeLimitValue()
    ensures BodySizeLimitBytes * 2 == 9 * 1024 * 1024
  {
  }

  datatype File = File(name: string, size: int, fileType: string)

  /** The two upload paths of `uploadFile`. */
  datatype Route = DirectToBlobThenProcess | MultipartUpload

  function RouteFor(f: File): (r: Route)
    ensures r == DirectToBlobThenProcess <==> f.size > 4718592
  {
    if f.size > BodySizeLimitBytes then DirectToBlobThenProcess else MultipartUpload
  }

  /** The JSON body POSTed to /api/files/process after a direct upload. */
  datatype ProcessRequest = ProcessRequest(url: string, pathname: string, contentType: string, filename: string)

  function ProcessRequestFor(blobUrl: string, blobPathname: string, f: File): (r: ProcessRequest)
    ensures r.contentType != "" && r.filename == f.name
    ensures f.fileType != "" ==> r.contentType == f.fileType
  {
    ProcessRequest(blobUrl, blobPathname, if f.fileType != "" then f.fileType else "application/octet-stream", f.name)
  }

  /** The fields of an upload endpoint's JSON answer the composer reads; an absent field is `None`. */
  datatype UploadData = UploadData(
    url: Option<string>,
    pathname: Option<string>,
    contentType: Option<string>,
    extractedText: Option<string>,
    extractionFailed: Option<bool>,
    documentType: Option<string>)

  /** What `buildAttachmentFromResponse` returns; `extractionFailed` is present only as `true`. */
  datatype Uploaded = Uploaded(
    url: Option<string>,
    name: string,
    contentType: string,
    extractedText: Option<string>,
    extractionFailed: bool,
    documentType: Option<DocumentTypeLabel>)

  function LabelOf(s: Option<string>): (r: Option<DocumentTypeLabel>)
    ensures r == Some(Pi) <==> s == Some("pi")
    ensures r == Some(Contestacao) <==> s == Some("contestacao")
  {
    if s == Some("pi") then Some(Pi)
    else if s == Some("contestacao") then Some(Contestacao)
    else None
  }

  /** `buildAttachmentFromResponse(data)` for the file `f`. */
  function BuildAttachmentFromResponse(data: UploadData, f: File): (u: Uploaded)
    ensures u.name == data.pathname.GetOr(f.name) && u.contentType == data.contentType.GetOr(f.fileType)
    ensures u.url == data.url && u.extractedText == data.extractedText
    ensures u.extractionFailed <==> data.extractionFailed == Some(true)
    ensures u.documentType.Some? <==> data.documentType == Some("pi") || data.documentType == Some("contestacao")
  {
    Uploaded(
      data.url,
      data.pathname.GetOr(f.name),
      data.contentType.GetOr(f.fileType),
      data.extractedText,
      data.extractionFailed == Some(true),
      LabelOf(data.documentType))
  }

  /**
   * How the upload of one file ended: the endpoint's JSON on success (after
   * the process call on the direct path), or any failure (blob upload
   * error, non-ok answer, network error), which `uploadFile` reports and
   * turns into `undefined`.
   */
  datatype UploadReply = Answered(data: UploadData) | UploadFailed

  /** `uploadFile(file)` given how its requests end. */
  function UploadFile(f: File, reply: UploadReply): Option<Uploaded> {
    if reply.Answered? then Some(BuildAttachmentFromResponse(reply.data, f)) else None
  }

  /** The attachment `processFiles` adds for an upload with a string url. */
  function ToAttachment(u: Uploaded): Attachment
    requires u.url.Some?
  {
    Attachment(u.name, u.url.value, u.contentType, u.extractedText, u.documentType,
      if u.extractionFailed then Some(true) else None)
  }

  /** The attachments `processFiles` adds, in file order: only uploads that came back with a url. */
  function Accepted(files: seq<File>, replies: seq<UploadReply>): (r: seq<Attachment>)
    requires |replies| == |files|
    ensures |r| <= |files|
  {
    if files == [] then []
    else
      var n := |files| - 1;
      var u := UploadFile(files[n], replies[n]);
      Accepted(files[..n], replies[..n]) + (if u.Some? && u.value.url.Some? then [ToAttachment(u.value)] else [])
  }

  /** Every added attachment comes from an answered upload that carried a url, and failures add nothing. */
  lemma {:induction false} AcceptedFromAnswers(files: seq<File>, replies: seq<UploadReply>)
    requires |replies| == |files|
    ensures (forall k :: 0 <= k < |replies| ==> replies[k].UploadFailed?) ==> Accepted(files, replies) == []
    ensures |Accepted(files, replies)| == |files| <==>
      forall k :: 0 <= k < |files| ==> replies[k].Answered? && replies[k].data.url.Some?
  {
    if files != [] {
      var n := |files| - 1;
      AcceptedFromAnswers(files[..n], replies[..n]);
      assert forall k :: 0 <= k < n ==> replies[..n][k] == replies[k];
      if |Accepted(files, replies)| == |files| {
        assert |Accepted(files[..n], replies[..n])| == n;
      }
    }
  }

  /** `(current) => current.map((a) => a.url === url ? { ...a, documentType } : a)` */
  function WithDocumentType(atts: seq<Attachment>, url: string, dt: DocumentTypeLabel): (r: seq<Attachment>)
    ensures |r| == |atts|
    ensures forall i :: 0 <= i < |atts| ==> r[i] == if atts[i].url == url then atts[i].(documentType := Some(dt)) else atts[i]
  {
    seq(|atts|, i requires 0 <= i < |atts| => if atts[i].url == url then atts[i].(documentType := Some(dt)) else atts[i])
  }

  /** `onPastedText`: the attachment with `url` gets the text and `extractionFailed: false`. */
  function WithPastedText(atts: seq<Attachment>, url: string, text: string): (r: seq<Attachment>)
    ensures |r| == |atts|
    ensures forall i :: 0 <= i < |atts| ==>
      r[i] == if atts[i].url == url then atts[i].(extractedText := Some(text), extractionFailed := Some(false)) else atts[i]
  {
    seq(|atts|, i requires 0 <= i < |atts| =>
      if atts[i].url == url then atts[i].(extractedText := Some(text), extractionFailed := Some(false)) else atts[i])
  }

  /** `onRemove`: `current.filter((a) => a.url !== url)` */
  function WithoutUrl(atts: seq<Attachment>, url: string): (r: seq<Attachment>)
    ensures forall i :: 0 <= i < |r| ==> r[i].url != url
    ensures forall a :: a in atts && a.url != url ==> a in r
    ensures forall a :: a in r ==> a in atts
  {
    if atts == [] then []
    else (if atts[0].url == url then [] else [atts[0]]) + WithoutUrl(atts[1..], url)
  }

  lemma {:induction false} WithoutUrlAppend(a: seq<Attachment>, b: seq<Attachment>, url: string)
    ensures WithoutUrl(a + b, url) == WithoutUrl(a, url) + WithoutUrl(b, url)
  {
    if a == [] {
      assert a + b == b;
    } else {
      assert (a + b)[1..] == a[1..] + b;
      WithoutUrlAppend(a[1..], b, url);
    }
  }

  /** Removing a url no attachment has changes nothing. */
  lemma {:induction false} WithoutAbsentUrl(atts: seq<Attachment>, url: string)
    requires forall i :: 0 <= i < |atts| ==> atts[i].url != url
    ensures WithoutUrl(atts, url) == atts
  {
    if atts != [] {
      WithoutAbsentUrl(atts[1..], url);
    }
  }

  /**
   * Pasting text into a blocked document unblocks it: afterwards it no longer
   * holds up the submit, and it goes out as a document part with that text.
   */
  lemma PastedTextUnblocks(atts: seq<Attachment>, url: string, text: string, i: int)
    requires 0 <= i < |atts| && atts[i].url == url
    ensures var r := WithPastedText(atts, url, text);
      !NeedsText(r[i]) && AttachmentPart(r[i]) == Some(DocumentPart(atts[i].name, text, atts[i].documentType))
  {
  }

  /** Pasting never blocks an attachment that was not blocked before. */
  lemma PastedTextKeepsGate(atts: seq<Attachment>, url: string, text: string)
    requires DocsWithoutText(atts) == []
    ensures DocsWithoutText(WithPastedText(atts, url, text)) == []
  {
  }

  /** The composer state the component keeps and the messages it has sent. */
  class Composer {
    var input: string
    var attachments: seq<Attachment>
    var uploadQueue: seq<string>
    var outbox: seq<seq<MessagePart>>

    constructor (input: string)
      ensures this.input == input && attachments == [] && uploadQueue == [] && outbox == []
    {
      this.input := input;
      attachments := [];
      uploadQueue := [];
      outbox := [];
    }

    /**
     * `submitForm`: refuses (leaving everything as it was) while some
     * PDF/DOC/DOCX attachment has no text; otherwise sends one message with
     * the attachment parts and the text part, then clears attachments and
     * input.
     */
    method SubmitForm()
      modifies this
      ensures DocsWithoutText(old(attachments)) != [] ==>
        input == old(input) && attachments == old(attachments) && outbox == old(outbox)
      ensures DocsWithoutText(old(attachments)) == [] ==>
        && outbox == old(outbox) + [MessageParts(old(attachments), old(input))]
        && attachments == [] && input == ""
      ensures uploadQueue == old(uploadQueue)
    {
      var docsWithoutText := DocsWithoutText(attachments);
      if |docsWithoutText| > 0 {
        return;
      }
      var attachmentParts := BuildAttachmentParts(attachments);
      var trimmed := Trim(input);
      outbox := outbox + [attachmentParts + [TextPart(if trimmed == "" then NoExtraText else trimmed)]];
      attachments := [];
      input := "";
    }

    /**
     * The form's `onSubmit`: nothing to send, a request still running, or a
     * document attachment without text leaves the state alone; otherwise the
     * message is sent.
     */
    method OnSubmit(status: ChatStatus)
      modifies this
      ensures (Trim(old(input)) == "" && old(attachments) == []) || status != Ready ==>
        input == old(input) && attachments == old(attachments) && outbox == old(outbox)
      ensures !(Trim(old(input)) == "" && old(attachments) == []) && status == Ready && DocsWithoutText(old(attachments)) != [] ==>
        input == old(input) && attachments == old(attachments) && outbox == old(outbox)
      ensures !(Trim(old(input)) == "" && old(attachments) == []) && status == Ready && DocsWithoutText(old(attachments)) == [] ==>
        outbox == old(outbox) + [MessageParts(old(attachments), old(input))] && attachments == [] && input == ""
      ensures uploadQueue == old(uploadQueue)
    {
      if Trim(input) == "" && |attachments| == 0 {
        return;
      }
      if status != Ready {
        return;
      }
      SubmitForm();
    }

    /**
     * `processFiles`: the names join the upload queue, the files are uploaded
     * one after another, each upload that came back with a url is appended to
     * the attachments, and the queue is emptied at the end.
     */
    method ProcessFiles(files: seq<File>, replies: seq<UploadReply>)
      requires |replies| == |files|
      modifies this
      ensures files == [] ==> attachments == old(attachments) && uploadQueue == old(uploadQueue)
      ensures files != [] ==> attachments == old(attachments) + Accepted(files, replies) && uploadQueue == []
      ensures input == old(input) && outbox == old(outbox)
    {
      if |files| == 0 {
        return;
      }
      uploadQueue := uploadQueue + seq(|files|, k requires 0 <= k < |files| => files[k].name);
      for i := 0 to |files|
        invariant attachments == old(attachments) + Accepted(files[..i], replies[..i])
        invariant input == old(input) && outbox == old(outbox)
      {
        assert files[..i + 1][..i] == files[..i] && replies[..i + 1][..i] == replies[..i];
        var attachment := UploadFile(files[i], replies[i]);
        if attachment.Some? && attachment.value.url.Some? {
          attachments := attachments + [ToAttachment(attachment.value)];
        }
        uploadQueue := Without(uploadQueue, files[i].name);
      }
      assert files[..|files|] == files && replies[..|replies|] == replies;
      uploadQueue := [];
    }

    /** The remove button of the attachment with `url`. */
    method Remove(url: string)
      modifies this
      ensures attachments == WithoutUrl(old(attachments), url)
      ensures input == old(input) && uploadQueue == old(uploadQueue) && outbox == old(outbox)
    {
      attachments := WithoutUrl(attachments, url);
    }

    /** `removeAllAttachments` */
    method RemoveAll()
      modifies this
      ensures attachments == []
      ensures input == old(input) && uploadQueue == old(uploadQueue) && outbox == old(outbox)
    {
      attachments := [];
    }
  }
}
