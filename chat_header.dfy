/**
 * The state logic of components/chat-header.tsx: the agent-instructions and
 * knowledge-base dialogs, whose local copies are loaded on open and
 * committed on close; the selection of knowledge documents; adding a new
 * knowledge document; and the memo comparator. The parent's state
 * (`agentInstructions`, `knowledgeDocumentIds`) is held in the same class,
 * since the header only reads it and writes it back through its setters.
 * What POST /api/knowledge answers is an input.
 */
module ChatHeader {
  import opened Wrappers
  import opened JsText

  /** The selection limit the knowledge dialog announces ("máx. 20") and the chat request schema enforces. */
  const MaxKnowledgeIds := 20

  /** `toggleKnowledgeId` as written: no limit on appending. */
  function ToggledIdsAsWritten(prev: seq<string>, id: string): seq<string> {
    if id in prev then Without(prev, id) else prev + [id]
  }

  /** Toggling a 21st id into a full selection yields 21 ids, which the chat request then rejects. */
  lemma ToggleExceedsLimit(prev: seq<string>, id: string)
    requires |prev| == MaxKnowledgeIds && id !in prev
    ensures |ToggledIdsAsWritten(prev, id)| == MaxKnowledgeIds + 1
  {
  }

  /**
   * The toggle with the limit the rest of the header applies: a present id
   * is removed wherever it occurs, an absent one is appended only while the
   * selection has fewer than 20 ids.
   */
  function ToggledIds(prev: seq<string>, id: string): (r: seq<string>)
    ensures id in prev ==> id !in r && forall x :: x in prev && x != id ==> x in r
    ensures id !in prev && |prev| < MaxKnowledgeIds ==> r == prev + [id]
    ensures id !in prev && |prev| >= MaxKnowledgeIds ==> r == prev
    ensures forall x :: x in r ==> x in prev || x == id
  {
    if id in prev then
      WithoutMembers(prev, id);
      Without(prev, id)
    else if |prev| < MaxKnowledgeIds then prev + [id]
    else prev
  }

  /** The toggle never takes a selection within the limit past it. */
  lemma ToggleKeepsLimit(prev: seq<string>, id: string)
    requires |prev| <= MaxKnowledgeIds
    ensures |ToggledIds(prev, id)| <= MaxKnowledgeIds
  {
  }

  /** The two toggles differ only where the written one overshoots the limit. */
  lemma ToggleCorrectionAgrees(prev: seq<string>, id: string)
    requires id in prev || |prev| < MaxKnowledgeIds
    ensures ToggledIds(prev, id) == ToggledIdsAsWritten(prev, id)
  {
  }

  /** Ticking an unticked document and unticking it again restores the selection. */
  lemma ToggleTwice(prev: seq<string>, id: string)
    requires id !in prev && |prev| < MaxKnowledgeIds
    ensures ToggledIds(ToggledIds(prev, id), id) == prev
  {
    WithoutAppend(prev, [id], id);
    WithoutAbsent(prev, id);
    assert Without([id], id) == [];
  }

  /** `(prev) => prev.length < 20 ? [...prev, created.id] : prev` */
  function WithCreated(prev: seq<string>, createdId: string): (r: seq<string>)
    ensures |prev| < MaxKnowledgeIds ==> r == prev + [createdId]
    ensures |prev| >= MaxKnowledgeIds ==> r == prev
  {
    if |prev| < MaxKnowledgeIds then prev + [createdId] else prev
  }

  lemma CreatedKeepsLimit(prev: seq<string>, createdId: string)
    requires |prev| <= MaxKnowledgeIds
    ensures |WithCreated(prev, createdId)| <= MaxKnowledgeIds
  {
  }

  /** How POST /api/knowledge ended: created with an id, or failed with the body's optional `message`. */
  datatype KnowledgeReply = Created(id: string) | Failed(message: Option<string>)

  const MissingFieldsError: string := "T\U{ED}tulo e conte\U{FA}do s\U{E3}o obrigat\U{F3}rios."
  const CreateFailedError: string := "Erro ao criar documento."

  /** The new-document form: its two fields, the busy flag and the error shown. */
  datatype AddForm = AddForm(title: string, content: string, isAdding: bool, error: Option<string>)

  /** What `handleAddDocument` leaves behind: the form, the local selection and the request it made, if any. */
  datatype AddOutcome = AddOutcome(form: AddForm, selection: seq<string>, request: Option<(string, string)>)

  function AddDocument(form: AddForm, selection: seq<string>, reply: KnowledgeReply): AddOutcome {
    var title := Trim(form.title);
    var content := Trim(form.content);
    if |title| == 0 || |content| == 0 then
      AddOutcome(form.(error := Some(MissingFieldsError)), selection, None)
    else
      match reply
      case Failed(message) =>
        AddOutcome(form.(error := Some(message.GetOr(CreateFailedError)), isAdding := false), selection, Some((title, content)))
      case Created(id) =>
        AddOutcome(AddForm("", "", false, None), WithCreated(selection, id), Some((title, content)))
  }

  /**
   * A blank trimmed title or content is refused with the fixed error and no
   * request; otherwise exactly one request carries the trimmed pair, the
   * form is no longer busy, and the selection grows only on a creation,
   * never past 20.
   */
  lemma AddDocumentOutcome(form: AddForm, selection: seq<string>, reply: KnowledgeReply)
    ensures var r := AddDocument(form, selection, reply);
      && (r.request.None? <==> Trim(form.title) == "" || Trim(form.content) == "")
      && (r.request.None? ==>
            r.form.error == Some(MissingFieldsError) && r.selection == selection
            && r.form.title == form.title && r.form.content == form.content)
      && (r.request.Some? ==> r.request.value == (Trim(form.title), Trim(form.content)) && !r.form.isAdding)
      && (r.request.Some? && reply.Failed? ==> r.form.error.Some? && r.selection == selection)
      && (r.request.Some? && reply.Created? ==> r.form == AddForm("", "", false, None))
      && (|selection| <= MaxKnowledgeIds ==> |r.selection| <= MaxKnowledgeIds)
  {
  }

  function RequestsOf(o: AddOutcome): seq<(string, string)> {
    if o.request.Some? then [o.request.value] else []
  }

  /** The props the memo comparator looks at. */
  datatype HeaderProps = HeaderProps(
    chatId: string,
    selectedVisibilityType: string,
    isReadonly: bool,
    agentInstructions: string,
    knowledgeDocumentIds: seq<string>)

  /** The comparator passed to `memo`: lengths equal and every id equal at its index. */
  predicate SameProps(prev: HeaderProps, next: HeaderProps) {
    && prev.chatId == next.chatId
    && prev.selectedVisibilityType == next.selectedVisibilityType
    && prev.isReadonly == next.isReadonly
    && prev.agentInstructions == next.agentInstructions
    && |prev.knowledgeDocumentIds| == |next.knowledgeDocumentIds|
    && forall i :: 0 <= i < |prev.knowledgeDocumentIds| ==> prev.knowledgeDocumentIds[i] == next.knowledgeDocumentIds[i]
  }

  /** The header skips a re-render exactly when the props it compares are all equal. */
  lemma SamePropsIff(prev: HeaderProps, next: HeaderProps)
    ensures SameProps(prev, next) <==> prev == next
  {
    if SameProps(prev, next) {
      assert prev.knowledgeDocumentIds == next.knowledgeDocumentIds;
    }
  }

  class Header {
    /** The parent's state, read through props and written through the setters. */
    var agentInstructions: string
    var knowledgeDocumentIds: seq<string>
    /** The header's own state. */
    var dialogOpen: bool
    var knowledgeDialogOpen: bool
    var localInstructions: string
    var localKnowledgeIds: seq<string>
    var addForm: AddForm
    /** The (title, content) bodies POSTed to /api/knowledge. */
    var requests: seq<(string, string)>

    constructor (agentInstructions: string, knowledgeDocumentIds: seq<string>)
      ensures this.agentInstructions == agentInstructions && this.knowledgeDocumentIds == knowledgeDocumentIds
      ensures localInstructions == agentInstructions && localKnowledgeIds == knowledgeDocumentIds
      ensures !dialogOpen && !knowledgeDialogOpen
      ensures addForm == AddForm("", "", false, None) && requests == []
    {
      this.agentInstructions := agentInstructions;
      this.knowledgeDocumentIds := knowledgeDocumentIds;
      dialogOpen := false;
      knowledgeDialogOpen := false;
      localInstructions := agentInstructions;
      localKnowledgeIds := knowledgeDocumentIds;
      addForm := AddForm("", "", false, None);
      requests := [];
    }

    /** `handleOpenChange`: opening loads the instructions, closing commits the edited copy. */
    method HandleOpenChange(open: bool)
      modifies this`dialogOpen, this`localInstructions, this`agentInstructions
      ensures dialogOpen == open
      ensures open ==> localInstructions == old(agentInstructions) && agentInstructions == old(agentInstructions)
      ensures !open ==> agentInstructions == old(localInstructions) && localInstructions == old(localInstructions)
    {
      dialogOpen := open;
      if open {
        localInstructions := agentInstructions;
      } else {
        agentInstructions := localInstructions;
      }
    }

    /** `handleKnowledgeOpenChange`: opening loads the selection, closing commits the edited copy. */
    method HandleKnowledgeOpenChange(open: bool)
      modifies this`knowledgeDialogOpen, this`localKnowledgeIds, this`knowledgeDocumentIds
      ensures knowledgeDialogOpen == open
      ensures open ==> localKnowledgeIds == old(knowledgeDocumentIds) && knowledgeDocumentIds == old(knowledgeDocumentIds)
      ensures !open ==> knowledgeDocumentIds == old(localKnowledgeIds) && localKnowledgeIds == old(localKnowledgeIds)
    {
      knowledgeDialogOpen := open;
      if open {
        localKnowledgeIds := knowledgeDocumentIds;
      } else {
        knowledgeDocumentIds := localKnowledgeIds;
      }
    }

    /** A checkbox of the knowledge list, with the selection limit applied. */
    method ToggleKnowledgeId(id: string)
      modifies this`localKnowledgeIds
      ensures localKnowledgeIds == ToggledIds(old(localKnowledgeIds), id)
    {
      localKnowledgeIds := ToggledIds(localKnowledgeIds, id);
    }

    /** `handleAddDocument`, the request's answer given. */
    method HandleAddDocument(reply: KnowledgeReply)
      modifies this`addForm, this`localKnowledgeIds, this`requests
      ensures addForm == AddDocument(old(addForm), old(localKnowledgeIds), reply).form
      ensures localKnowledgeIds == AddDocument(old(addForm), old(localKnowledgeIds), reply).selection
      ensures requests == old(requests) + RequestsOf(AddDocument(old(addForm), old(localKnowledgeIds), reply))
    {
      ghost var outcome := AddDocument(addForm, localKnowledgeIds, reply);
      var title := Trim(addForm.title);
      var content := Trim(addForm.content);
      if |title| == 0 || |content| == 0 {
        addForm := addForm.(error := Some(MissingFieldsError));
        assert outcome.request.None? && outcome.form == addForm;
        return;
      }
      assert outcome.request == Some((title, content));
      var form := addForm.(error := None, isAdding := true);
      var selection := localKnowledgeIds;
      requests := requests + [(title, content)];
      if reply.Failed? {
        form := form.(error := Some(reply.message.GetOr(CreateFailedError)));
      } else {
        form := form.(title := "", content := "");
        selection := WithCreated(selection, reply.id);
      }
      addForm := form.(isAdding := false);
      localKnowledgeIds := selection;
    }
  }
}
