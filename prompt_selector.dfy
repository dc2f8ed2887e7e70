/**
 * The prompt menu of components/prompt-selector.tsx: the four Revisor
 * prompts, which of them are offered given the attachments and the number
 * of messages, and what choosing one sends.
 */
module PromptSelector {
  import opened ChatTypes

  /** One entry of `REVISOR_PROMPTS`; an absent flag is `false`. */
  datatype RevisorPrompt = RevisorPrompt(
    id: string,
    caption: string,
    text: string,
    alwaysAvailable: bool,
    requiresAttachments: bool,
    requiresMessages: bool)

  const ExplicarFluxo := RevisorPrompt(
    "explicar-fluxo",
    "Explicar o fluxo do Revisor",
    "Explicar o fluxo do Revisor: GATE-1, FASE A, GATE 0.5, FASE B e entrega dos 3 DOCX.",
    true, false, false)

  const Auditar := RevisorPrompt(
    "auditar",
    "Auditar minha contesta\U{E7}\U{E3}o",
    "Auditar minha contesta\U{E7}\U{E3}o: segue em anexo a Peti\U{E7}\U{E3}o Inicial e a Contesta\U{E7}\U{E3}o. Extraia dados, mapeie pedidos e siga o fluxo (Gate 0.5 antes de gerar docs).",
    false, true, false)

  const Roteiros := RevisorPrompt(
    "roteiros",
    "Preparar roteiros de audi\U{EA}ncia",
    "Preparar roteiros de audi\U{EA}ncia para advogado e preposto com base na contesta\U{E7}\U{E3}o j\U{E1} analisada.",
    false, false, true)

  const BancoDeTese := RevisorPrompt(
    "bancodetese",
    "Usar base de teses (@bancodetese)",
    "Usar base de teses (@bancodetese): incluir quadro de teses na Avalia\U{E7}\U{E3}o da Defesa.",
    false, false, true)

  const RevisorPrompts: seq<RevisorPrompt> := [ExplicarFluxo, Auditar, Roteiros, BancoDeTese]

  /** The filter callback. */
  predicate Offered(p: RevisorPrompt, hasAttachments: bool, messagesCount: int) {
    if p.alwaysAvailable then true
    else if p.requiresAttachments && !hasAttachments then false
    else if p.requiresMessages && messagesCount == 0 then false
    else true
  }

  /** `REVISOR_PROMPTS.filter(…)` over any list of prompts. */
  function OfferedPrompts(ps: seq<RevisorPrompt>, hasAttachments: bool, messagesCount: int): (r: seq<RevisorPrompt>)
    ensures |r| <= |ps|
  {
    if ps == [] then []
    else
      var head := if Offered(ps[0], hasAttachments, messagesCount) then [ps[0]] else [];
      head + OfferedPrompts(ps[1..], hasAttachments, messagesCount)
  }

  /** A prompt is listed exactly when it is in the list and the filter offers it. */
  lemma {:induction false} OfferedPromptsIff(ps: seq<RevisorPrompt>, hasAttachments: bool, messagesCount: int, p: RevisorPrompt)
    ensures p in OfferedPrompts(ps, hasAttachments, messagesCount) <==> p in ps && Offered(p, hasAttachments, messagesCount)
  {
    if ps != [] {
      OfferedPromptsIff(ps[1..], hasAttachments, messagesCount, p);
      assert p in ps <==> p == ps[0] || p in ps[1..];
    }
  }

  /**
   * The menu lists, in the constant's order: "explicar-fluxo" always,
   * "auditar" exactly with attachments, and "roteiros" and "bancodetese"
   * exactly once the chat has messages.
   */
  lemma {:induction false} MenuByCase(hasAttachments: bool, messagesCount: int)
    ensures OfferedPrompts(RevisorPrompts, hasAttachments, messagesCount)
      == [ExplicarFluxo]
         + (if hasAttachments then [Auditar] else [])
         + (if messagesCount != 0 then [Roteiros, BancoDeTese] else [])
  {
    var a, m := hasAttachments, messagesCount;
    var p3 := [BancoDeTese];
    var p2 := [Roteiros] + p3;
    var p1 := [Auditar] + p2;
    var p0 := [ExplicarFluxo] + p1;
    assert RevisorPrompts == p0;
    var tail := if m != 0 then [Roteiros, BancoDeTese] else [];
    OfferedCons(BancoDeTese, [], a, m);
    OfferedCons(Roteiros, p3, a, m);
    assert OfferedPrompts(p2, a, m) == tail;
    OfferedCons(Auditar, p2, a, m);
    OfferedCons(ExplicarFluxo, p1, a, m);
  }

  /** Filtering a list that starts with `p` keeps `p` exactly when it is offered, before the rest's filtering. */
  lemma OfferedCons(p: RevisorPrompt, rest: seq<RevisorPrompt>, hasAttachments: bool, messagesCount: int)
    ensures OfferedPrompts([p] + rest, hasAttachments, messagesCount)
      == (if Offered(p, hasAttachments, messagesCount) then [p] else []) + OfferedPrompts(rest, hasAttachments, messagesCount)
  {
    assert ([p] + rest)[1..] == rest;
  }

  /** The dropdown's open state and the messages its choices have sent. */
  class PromptMenu {
    var open: bool
    var sent: seq<seq<MessagePart>>

    constructor ()
      ensures !open && sent == []
    {
      open := false;
      sent := [];
    }

    /** `handleSelect`: one user message whose only part is the prompt's full text, then the menu closes. */
    method HandleSelect(text: string)
      modifies this
      ensures sent == old(sent) + [[TextPart(text)]]
      ensures !open
    {
      sent := sent + [[TextPart(text)]];
      open := false;
    }
  }
}
