/**
 * The chat-side records shared by the components: messages and their parts,
 * the chat status, votes, and the attachment record with its optional
 * Revisor label.
 */
module ChatTypes {
  import opened Wrappers

  datatype Role = User | Assistant | System

  /** The Revisor label of a case document: Petição Inicial or Contestação. */
  datatype DocumentTypeLabel = Pi | Contestacao

  /**
   * An attachment as the composer keeps it. Optional fields are `None` when
   * the property is absent from the object.
   */
  datatype Attachment = Attachment(
    name: string,
    url: string,
    contentType: string,
    extractedText: Option<string>,
    documentType: Option<DocumentTypeLabel>,
    extractionFailed: Option<bool>)

  /**
   * The parts of a message the core looks at. `ToolPart` stands for the
   * tool-call parts, which carry a `state`; `OtherPart` for every part that
   * carries neither text nor state (reasoning, step markers, data parts).
   */
  datatype MessagePart =
    | TextPart(text: string)
    | FilePart(url: string, name: string, mediaType: string)
    | DocumentPart(name: string, text: string, documentType: Option<DocumentTypeLabel>)
    | ToolPart(toolName: string, state: string)
    | OtherPart

  datatype ChatMessage = ChatMessage(id: string, role: Role, parts: seq<MessagePart>)

  /** The status of the chat request, as the chat hook reports it. */
  datatype ChatStatus = Ready | Submitted | Streaming | Error

  datatype Vote = Vote(chatId: string, messageId: string, isUpvoted: bool)

  /** The texts of the text parts of `parts`, in order. */
  function TextsOf(parts: seq<MessagePart>): (r: seq<string>)
    ensures |r| <= |parts|
  {
    if parts == [] then []
    else (if parts[0].TextPart? then [parts[0].text] else []) + TextsOf(parts[1..])
  }

  lemma {:induction false} TextsOfAppend(a: seq<MessagePart>, b: seq<MessagePart>)
    ensures TextsOf(a + b) == TextsOf(a) + TextsOf(b)
  {
    if a == [] {
      assert a + b == b;
    } else {
      assert (a + b)[0] == a[0];
      assert (a + b)[1..] == a[1..] + b;
      TextsOfAppend(a[1..], b);
      var head := if a[0].TextPart? then [a[0].text] else [];
      calc {
        TextsOf(a + b);
        head + TextsOf(a[1..] + b);
        head + (TextsOf(a[1..]) + TextsOf(b));
        (head + TextsOf(a[1..])) + TextsOf(b);
      }
    }
  }
}
