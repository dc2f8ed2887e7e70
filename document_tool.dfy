/**
 * The document-tool widgets of components/document.tsx: the action wording
 * for each tool and tense, the label of a tool call in progress, and what
 * clicking a call or a result does to the artifact panel. The clicked
 * element's bounding box is an input.
 */
module DocumentTool {
  import opened StreamParts

  datatype DocumentToolType = Create | Update | RequestSuggestions

  datatype Tense = Present | Past

  /** `getActionText` */
  function ActionText(t: DocumentToolType, tense: Tense): string {
    match t
    case Create => if tense == Present then "Criando" else "Criado"
    case Update => if tense == Present then "Atualizando" else "Atualizado"
    case RequestSuggestions =>
      if tense == Present then "Adicionando sugest\U{F5}es" else "Adicionadas sugest\U{F5}es em"
  }

  /** The six wordings are pairwise different: the text names the tool and the tense. */
  lemma ActionTextInjective(t1: DocumentToolType, s1: Tense, t2: DocumentToolType, s2: Tense)
    ensures ActionText(t1, s1) == ActionText(t2, s2) ==> t1 == t2 && s1 == s2
  {
    if ActionText(t1, s1) == ActionText(t2, s2) {
      assert |ActionText(t1, s1)| == |ActionText(t2, s2)|;
    }
  }

  /** The arguments of a tool call, one shape per tool. */
  datatype ToolCallArgs =
    | CreateArgs(title: string, kind: ArtifactKind)
    | UpdateArgs(id: string, description: string)
    | SuggestionArgs(documentId: string)

  /** `getDocumentToolCallLabel` */
  function CallLabel(t: DocumentToolType, args: ToolCallArgs): (r: string)
    ensures t == Create && args.CreateArgs? && args.title != "" ==> r == "\"" + args.title + "\""
    ensures t == Update && args.UpdateArgs? ==> r == "\"" + args.description + "\""
    ensures t == RequestSuggestions ==> r == "para o documento"
    ensures (t == Create && !(args.CreateArgs? && args.title != "")) || (t == Update && !args.UpdateArgs?) ==> r == ""
  {
    if t == Create && args.CreateArgs? && args.title != "" then "\"" + args.title + "\""
    else if t == Update && args.UpdateArgs? then "\"" + args.description + "\""
    else if t == RequestSuggestions then "para o documento"
    else ""
  }

  /** The text of a running call: the present-tense action, a space, and the label. */
  function CallText(t: DocumentToolType, args: ToolCallArgs): string {
    ActionText(t, Present) + " " + CallLabel(t, args)
  }

  /** The `result` prop of a finished call. */
  datatype ResultRef = ResultRef(id: string, title: string, kind: ArtifactKind)

  /** Clicking a result: read-only chats change nothing; otherwise the panel opens on the result, keeping its content. */
  function ClickResult(current: UIArtifact, result: ResultRef, isReadonly: bool, box: BoundingBox): (r: UIArtifact)
    ensures isReadonly ==> r == current
  {
    if isReadonly then current
    else UIArtifact(result.title, result.id, result.kind, current.content, true, Idle, box)
  }

  /** Clicking a running call: read-only chats change nothing; otherwise the panel only becomes visible at the box. */
  function ClickCall(current: UIArtifact, isReadonly: bool, box: BoundingBox): (r: UIArtifact)
    ensures isReadonly ==> r == current
  {
    if isReadonly then current
    else current.(isVisible := true, boundingBox := box)
  }

  /**
   * Outside read-only chats a result click points the panel at the result's
   * document, kind and title, shows it idle and visible, and leaves its
   * content as it was; a second click changes nothing more.
   */
  lemma ClickResultOpens(current: UIArtifact, result: ResultRef, box: BoundingBox)
    ensures var r := ClickResult(current, result, false, box);
      && r.documentId == result.id && r.kind == result.kind && r.title == result.title
      && r.content == current.content && r.isVisible && r.status == Idle && r.boundingBox == box
      && ClickResult(r, result, false, box) == r
  {
  }

  /** A call click keeps everything but visibility and the box, and is idempotent. */
  lemma ClickCallOpens(current: UIArtifact, box: BoundingBox)
    ensures var r := ClickCall(current, false, box);
      && r.isVisible && r.boundingBox == box
      && r.(isVisible := current.isVisible, boundingBox := current.boundingBox) == current
      && ClickCall(r, false, box) == r
  {
  }
}
