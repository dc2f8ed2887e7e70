/**
 * The "Antes de executar" checklist of components/revisor-checklist.tsx:
 * shown only on an empty chat, with a tick for the initial petition, for
 * the defence and for a non-empty knowledge base.
 */
module RevisorChecklist {
  import opened Wrappers
  import opened ChatTypes
  import MultimodalInput

  /** An attachment with extracted text labelled `kind`. */
  predicate IsReady(a: Attachment, kind: DocumentTypeLabel) {
    a.extractedText.Some? && a.documentType == Some(kind)
  }

  /** `attachments.some((a) => a.extractedText != null && a.documentType === kind)` */
  predicate HasReady(atts: seq<Attachment>, kind: DocumentTypeLabel) {
    atts != [] && (IsReady(atts[0], kind) || HasReady(atts[1..], kind))
  }

  lemma {:induction false} HasReadyIff(atts: seq<Attachment>, kind: DocumentTypeLabel)
    ensures HasReady(atts, kind) <==> exists i :: 0 <= i < |atts| && IsReady(atts[i], kind)
  {
    if atts != [] {
      HasReadyIff(atts[1..], kind);
      if exists i :: 0 <= i < |atts| && IsReady(atts[i], kind) {
        var i :| 0 <= i < |atts| && IsReady(atts[i], kind);
        if i > 0 {
          assert atts[1..][i - 1] == atts[i];
        }
      }
    }
  }

  /** The three ticks, and the knowledge-base count shown next to the third. */
  datatype Checklist = Checklist(hasPi: bool, hasContestacao: bool, hasBase: bool, baseCount: Option<nat>)

  /** `RevisorChecklist`: `None` is the `null` render once the chat has messages. */
  function ChecklistFor(atts: seq<Attachment>, knowledgeDocumentIds: Option<seq<string>>, messageCount: int): (r: Option<Checklist>)
    ensures r.None? <==> messageCount > 0
  {
    if messageCount > 0 then None
    else
      var ids := knowledgeDocumentIds.GetOr([]);
      var hasBase := |ids| > 0;
      Some(Checklist(HasReady(atts, Pi), HasReady(atts, Contestacao), hasBase, if hasBase then Some(|ids|) else None))
  }

  /**
   * On an empty chat the PI and Contestação ticks hold exactly when some
   * attachment with extracted text carries that kind, and the base tick
   * exactly when a knowledge id is selected, whose number is then shown.
   */
  lemma ChecklistIff(atts: seq<Attachment>, knowledgeDocumentIds: Option<seq<string>>, messageCount: int)
    requires messageCount <= 0
    ensures var c := ChecklistFor(atts, knowledgeDocumentIds, messageCount).value;
      && (c.hasPi <==> exists i :: 0 <= i < |atts| && atts[i].extractedText.Some? && atts[i].documentType == Some(Pi))
      && (c.hasContestacao <==> exists i :: 0 <= i < |atts| && atts[i].extractedText.Some? && atts[i].documentType == Some(Contestacao))
      && (c.hasBase <==> knowledgeDocumentIds.Some? && |knowledgeDocumentIds.value| > 0)
      && (c.baseCount.Some? <==> c.hasBase)
      && (c.hasBase ==> c.baseCount == Some(|knowledgeDocumentIds.value|))
  {
    HasReadyIff(atts, Pi);
    HasReadyIff(atts, Contestacao);
  }

  /**
   * A ticked PI (or Contestação) means the message the composer would send
   * now carries that document as a document part labelled accordingly.
   */
  lemma TickedDocumentIsSent(atts: seq<Attachment>, kind: DocumentTypeLabel)
    requires HasReady(atts, kind)
    ensures exists p :: p in MultimodalInput.AttachmentParts(atts) && p.DocumentPart? && p.documentType == Some(kind)
  {
    HasReadyIff(atts, kind);
    var i :| 0 <= i < |atts| && IsReady(atts[i], kind);
    MultimodalInput.AttachmentPartKept(atts, i);
  }
}
