/**
 * The data parts the server writes to the chat's data stream and the client
 * buffers, and the artifact record the client folds them into.
 */
module StreamParts {
  import opened Wrappers

  datatype ArtifactKind = TextKind | CodeKind | ImageKind | SheetKind

  /** A stored suggestion; only the fields the core passes along are kept. */
  datatype Suggestion = Suggestion(id: string, originalText: string, suggestedText: string, description: string)

  /**
   * One `data-*` part. The payload of `data-textDelta` is `None` when it is
   * not a string, a case the text artifact guards against.
   */
  datatype StreamPart =
    | DataTextDelta(delta: Option<string>)
    | DataImageDelta(image: string)
    | DataSheetDelta(sheet: string)
    | DataCodeDelta(code: string)
    | DataSuggestion(suggestion: Suggestion)
    | DataAppendMessage(message: string)
    | DataId(id: string)
    | DataTitle(title: string)
    | DataKind(kind: ArtifactKind)
    | DataClear
    | DataFinish
    | DataChatTitle(chatTitle: string)

  datatype ArtifactStatus = Streaming | Idle

  datatype BoundingBox = BoundingBox(top: int, left: int, width: int, height: int)

  /** The artifact panel's record (`UIArtifact`). */
  datatype UIArtifact = UIArtifact(
    title: string,
    documentId: string,
    kind: ArtifactKind,
    content: string,
    isVisible: bool,
    status: ArtifactStatus,
    boundingBox: BoundingBox)

  /** The text artifact's metadata: the suggestions received so far. */
  datatype TextMetadata = TextMetadata(suggestions: seq<Suggestion>)
}
