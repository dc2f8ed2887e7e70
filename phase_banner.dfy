/**
 * The Gate 0.5 logic of components/revisor-phase-banner.tsx: the text
 * extractors, the backward search for the last assistant message holding the
 * Gate 0.5 summary between its two delimiters, the detection of the user's
 * CONFIRMAR / CORRIGIR reply, and the choice of banner. Rendering is left
 * out; a banner is one constructor of `Banner`.
 */
module PhaseBanner {
  import opened Wrappers
  import opened JsText
  import opened ChatTypes
  import Utils

  /** `GATE_05_RESUMO_START` of lib/ai/agent-revisor-defesas.ts */
  const GateStart: string := "--- GATE_0.5_RESUMO ---"
  /** `GATE_05_RESUMO_END` */
  const GateEnd: string := "--- /GATE_0.5_RESUMO ---"

  /** Each part's text if it is a text part, "" otherwise. */
  function PartTexts(parts: seq<MessagePart>): (r: seq<string>)
    ensures |r| == |parts|
  {
    if parts == [] then [] else [if parts[0].TextPart? then parts[0].text else ""] + PartTexts(parts[1..])
  }

  /** `getAssistantMessageText` */
  function AssistantMessageText(m: ChatMessage): string {
    if m.role != Assistant then "" else Concat(PartTexts(m.parts))
  }

  lemma {:induction false} PartTextsConcat(parts: seq<MessagePart>)
    ensures Concat(PartTexts(parts)) == Concat(TextsOf(parts))
  {
    if parts != [] {
      PartTextsConcat(parts[1..]);
      assert PartTexts(parts)[1..] == PartTexts(parts[1..]);
      assert TextsOf(parts) == (if parts[0].TextPart? then [parts[0].text] else []) + TextsOf(parts[1..]);
      ConcatAppend(if parts[0].TextPart? then [parts[0].text] else [], TextsOf(parts[1..]));
    }
  }

  /** For an assistant message the text is `getTextFromMessage`'s: the text parts joined with "", nothing else. */
  lemma AssistantTextIsMessageText(m: ChatMessage)
    ensures AssistantMessageText(m) == if m.role == Assistant then Utils.GetTextFromMessage(m) else ""
  {
    PartTextsConcat(m.parts);
  }

  /** The text of the first text part, if any. */
  function FirstText(parts: seq<MessagePart>): (r: Option<string>)
    ensures r.None? <==> forall i :: 0 <= i < |parts| ==> !parts[i].TextPart?
    ensures r.Some? ==> exists i :: 0 <= i < |parts| && parts[i] == TextPart(r.value)
                          && forall j :: 0 <= j < i ==> !parts[j].TextPart?
  {
    if parts == [] then None
    else if parts[0].TextPart? then Some(parts[0].text)
    else
      var r := FirstText(parts[1..]);
      if r.Some? then
        var i :| 0 <= i < |parts[1..]| && parts[1..][i] == TextPart(r.value)
          && forall j :: 0 <= j < i ==> !parts[1..][j].TextPart?;
        assert parts[i + 1] == TextPart(r.value);
        r
      else r
  }

  /** `getUserMessageText`: the trimmed first text part of a user message, "" otherwise. */
  function UserMessageText(m: ChatMessage): string {
    if m.role != User then ""
    else
      match FirstText(m.parts)
      case Some(t) => Trim(t)
      case None => ""
  }

  /** An assistant message whose joined text holds both delimiters. */
  predicate HasGate05(m: ChatMessage) {
    m.role == Assistant
    && Contains(AssistantMessageText(m), GateStart)
    && Contains(AssistantMessageText(m), GateEnd)
  }

  /** The last index of `xs` whose element satisfies `p`, or -1. */
  function LastIndexWhere<T>(xs: seq<T>, p: T -> bool): (r: int)
    ensures -1 <= r < |xs|
    ensures r >= 0 ==> p(xs[r]) && forall j :: r < j < |xs| ==> !p(xs[j])
    ensures r == -1 <==> forall j :: 0 <= j < |xs| ==> !p(xs[j])
  {
    if xs == [] then -1
    else if p(xs[|xs| - 1]) then |xs| - 1
    else
      var r := LastIndexWhere(xs[..|xs| - 1], p);
      assert forall j :: 0 <= j < |xs| - 1 ==> xs[..|xs| - 1][j] == xs[j];
      r
  }

  /** The answer is pinned down by its two properties. */
  lemma LastIndexWhereUnique<T>(xs: seq<T>, p: T -> bool, i: int)
    requires 0 <= i < |xs| && p(xs[i])
    requires forall j :: i < j < |xs| ==> !p(xs[j])
    ensures LastIndexWhere(xs, p) == i
  {
  }

  /** The index `findLastAssistantIndexWithGate05` answers: the last message with the summary, or -1. */
  function Gate05Index(ms: seq<ChatMessage>): int {
    LastIndexWhere(ms, HasGate05)
  }

  /** `findLastAssistantIndexWithGate05`: the backward loop. */
  method FindLastAssistantIndexWithGate05(ms: seq<ChatMessage>) returns (r: int)
    ensures r == Gate05Index(ms)
  {
    var i := |ms| - 1;
    while i >= 0
      invariant -1 <= i < |ms|
      invariant forall j :: i < j < |ms| ==> !HasGate05(ms[j])
    {
      if ms[i].role == Assistant {
        var text := AssistantMessageText(ms[i]);
        if Contains(text, GateStart) && Contains(text, GateEnd) {
          LastIndexWhereUnique(ms, HasGate05, i);
          return i;
        }
      }
      assert !HasGate05(ms[i]);
      i := i - 1;
    }
    return -1;
  }

  /** A user message that answers the summary: exactly "CONFIRMAR", or starting with "CORRIGIR:", after trimming. */
  predicate IsGateReply(m: ChatMessage) {
    m.role == User && (UserMessageText(m) == "CONFIRMAR" || StartsWith(UserMessageText(m), "CORRIGIR:"))
  }

  /** `messages.slice(idx + 1).some(…)`: the user replied after the summary at `idx`. */
  predicate RepliedAfter(ms: seq<ChatMessage>, idx: int) {
    exists j :: idx < j < |ms| && 0 <= j && IsGateReply(ms[j])
  }

  datatype Banner = Hidden | ErrorAfterConfirm | FaseB | FaseAReadOnly | FaseAWithButtons

  /** What `RevisorPhaseBanner` renders. */
  function SelectBanner(ms: seq<ChatMessage>, status: ChatStatus, isReadonly: bool): Banner {
    var idx := Gate05Index(ms);
    if idx == -1 then Hidden
    else
      var replied := RepliedAfter(ms, idx);
      var isStreaming := status == Streaming || status == Submitted;
      var lastIsAssistant := |ms| > 0 && ms[|ms| - 1].role == Assistant;
      if replied && status == Error then ErrorAfterConfirm
      else if replied && (isStreaming || lastIsAssistant) then FaseB
      else if replied then Hidden
      else if isReadonly then FaseAReadOnly
      else FaseAWithButtons
  }

  /** Without a Gate 0.5 summary there is no banner, whatever the status. */
  lemma NoSummaryNoBanner(ms: seq<ChatMessage>, status: ChatStatus, isReadonly: bool)
    requires forall j :: 0 <= j < |ms| ==> !HasGate05(ms[j])
    ensures SelectBanner(ms, status, isReadonly) == Hidden
  {
  }

  /**
   * The FASE A banners show exactly while there is a summary and no reply
   * after the last one; the buttons only when the chat is not read-only.
   */
  lemma FaseAIff(ms: seq<ChatMessage>, status: ChatStatus, isReadonly: bool)
    ensures var b := SelectBanner(ms, status, isReadonly);
      (b == FaseAReadOnly || b == FaseAWithButtons) <==>
        exists i :: 0 <= i < |ms| && HasGate05(ms[i])
          && forall j :: i < j < |ms| ==> !HasGate05(ms[j]) && !IsGateReply(ms[j])
    ensures SelectBanner(ms, status, isReadonly) == FaseAWithButtons ==> !isReadonly
    ensures SelectBanner(ms, status, isReadonly) == FaseAReadOnly ==> isReadonly
  {
    UnansweredSummaryIff(ms);
  }

  /** The last summary has no reply after it exactly when some summary has neither a summary nor a reply after it. */
  lemma UnansweredSummaryIff(ms: seq<ChatMessage>)
    ensures (Gate05Index(ms) >= 0 && !RepliedAfter(ms, Gate05Index(ms))) <==>
      exists i :: 0 <= i < |ms| && HasGate05(ms[i])
        && forall j :: i < j < |ms| ==> !HasGate05(ms[j]) && !IsGateReply(ms[j])
  {
    LastUnansweredIff(ms, HasGate05, IsGateReply);
  }

  /** The same, for any marker `s` and reply test `r`. */
  lemma LastUnansweredIff<T>(xs: seq<T>, s: T -> bool, r: T -> bool)
    ensures (LastIndexWhere(xs, s) >= 0 && !(exists j :: LastIndexWhere(xs, s) < j < |xs| && r(xs[j]))) <==>
      exists i :: 0 <= i < |xs| && s(xs[i]) && forall j :: i < j < |xs| ==> !s(xs[j]) && !r(xs[j])
  {
    var idx := LastIndexWhere(xs, s);
    if exists i :: 0 <= i < |xs| && s(xs[i]) && forall j :: i < j < |xs| ==> !s(xs[j]) && !r(xs[j]) {
      var i :| 0 <= i < |xs| && s(xs[i]) && forall j :: i < j < |xs| ==> !s(xs[j]) && !r(xs[j]);
      LastIndexWhereUnique(xs, s, i);
    }
  }

  /** Once the user has replied, the banner is the error notice, FASE B, or nothing; the error notice wins over FASE B. */
  lemma RepliedBanners(ms: seq<ChatMessage>, status: ChatStatus, isReadonly: bool)
    requires Gate05Index(ms) >= 0 && RepliedAfter(ms, Gate05Index(ms))
    ensures var b := SelectBanner(ms, status, isReadonly);
      && (b == ErrorAfterConfirm <==> status == Error)
      && (b == FaseB <==> status != Error && (status == Streaming || status == Submitted || ms[|ms| - 1].role == Assistant))
      && b != FaseAReadOnly && b != FaseAWithButtons
  {
  }

  /** The message `handleConfirmar` sends: one user text part "CONFIRMAR". */
  function ConfirmMessage(id: string): ChatMessage {
    ChatMessage(id, User, [TextPart("CONFIRMAR")])
  }

  /** What `handleCorrigir` puts in the composer. */
  const CorrigirPrefill: string := "CORRIGIR: "

  /** Appending an element `p` rejects leaves the last index where `p` holds unchanged. */
  lemma LastIndexWhereAppend<T>(xs: seq<T>, p: T -> bool, x: T)
    requires !p(x)
    ensures LastIndexWhere(xs + [x], p) == LastIndexWhere(xs, p)
  {
    assert (xs + [x])[..|xs|] == xs;
  }

  /** The CONFIRMAR message is itself a reply to the summary. */
  lemma ConfirmIsReply(id: string)
    ensures IsGateReply(ConfirmMessage(id))
  {
    assert FirstText(ConfirmMessage(id).parts) == Some("CONFIRMAR");
    TrimStartOfUntrimmed("CONFIRMAR");
    TrimEndOfUntrimmed("CONFIRMAR");
  }

  /**
   * Sending a reply after a summary moves the banner on: FASE B while the
   * request is submitted or streaming, the error notice on error, never a
   * FASE A banner again.
   */
  lemma ReplyMovesToFaseB(ms: seq<ChatMessage>, m: ChatMessage, status: ChatStatus, isReadonly: bool)
    requires Gate05Index(ms) >= 0 && IsGateReply(m)
    ensures var ms' := ms + [m];
      && Gate05Index(ms') == Gate05Index(ms)
      && ((status == Submitted || status == Streaming) ==> SelectBanner(ms', status, isReadonly) == FaseB)
      && (status == Error ==> SelectBanner(ms', status, isReadonly) == ErrorAfterConfirm)
      && SelectBanner(ms', status, isReadonly) != FaseAReadOnly
      && SelectBanner(ms', status, isReadonly) != FaseAWithButtons
  {
    var ms' := ms + [m];
    var idx := Gate05Index(ms);
    assert Gate05Index(ms') == idx by {
      assert !HasGate05(m);
      LastIndexWhereAppend(ms, HasGate05, m);
    }
    assert RepliedAfter(ms', idx) by {
      assert ms'[|ms|] == m;
    }
    RepliedBanners(ms', status, isReadonly);
  }

  /** In particular for the CONFIRMAR button. */
  lemma ConfirmMovesToFaseB(ms: seq<ChatMessage>, id: string, status: ChatStatus, isReadonly: bool)
    requires Gate05Index(ms) >= 0
    ensures (status == Submitted || status == Streaming) ==> SelectBanner(ms + [ConfirmMessage(id)], status, isReadonly) == FaseB
  {
    ConfirmIsReply(id);
    ReplyMovesToFaseB(ms, ConfirmMessage(id), status, isReadonly);
  }

  /** Whatever the user appends to the CORRIGIR prefill, the trimmed text still starts with "CORRIGIR:", so sending it counts as a reply. */
  lemma CorrigirPrefillIsReply(rest: string)
    ensures StartsWith(Trim(CorrigirPrefill + rest), "CORRIGIR:")
  {
    var s := CorrigirPrefill + rest;
    assert s[0] == 'C' && s[8] == ':';
    TrimStartOfUntrimmed(s);
    var r := TrimEnd(s);
    assert !IsWhitespace(s[8]);
    assert r[..9] == s[..9] == "CORRIGIR:";
  }
}
