/**
 * The per-message derivations of components/messages.tsx: which message
 * carries the inline CONFIRMAR / CORRIGIR buttons, which one shows as
 * loading, the vote each message is shown with, and whether the "thinking"
 * placeholder appears. The Gate 0.5 search and the reply test are the ones
 * of the phase banner.
 */
module MessagesView {
  import opened Wrappers
  import opened ChatTypes
  import opened PhaseBanner

  /** `gate05ConfirmInline` for the message at `index`. */
  predicate ConfirmInline(ms: seq<ChatMessage>, isReadonly: bool, index: int)
    requires 0 <= index < |ms|
  {
    var gate05Idx := Gate05Index(ms);
    !isReadonly && ms[index].role == Assistant && index == gate05Idx && !RepliedAfter(ms, gate05Idx)
  }

  /**
   * At most one message carries the inline buttons: the one holding the last
   * summary. Some message carries them exactly when the banner offers its own
   * CONFIRMAR / CORRIGIR buttons, so without a summary none does.
   */
  lemma ConfirmInlineMatchesBanner(ms: seq<ChatMessage>, isReadonly: bool, status: ChatStatus)
    ensures forall i, j :: 0 <= i < |ms| && 0 <= j < |ms| && ConfirmInline(ms, isReadonly, i) && ConfirmInline(ms, isReadonly, j) ==> i == j
    ensures forall i :: 0 <= i < |ms| && ConfirmInline(ms, isReadonly, i) ==> HasGate05(ms[i])
    ensures (exists i :: 0 <= i < |ms| && ConfirmInline(ms, isReadonly, i)) <==> SelectBanner(ms, status, isReadonly) == FaseAWithButtons
  {
    var idx := Gate05Index(ms);
    if SelectBanner(ms, status, isReadonly) == FaseAWithButtons {
      assert ConfirmInline(ms, isReadonly, idx);
    }
  }

  /** `isLoading` for the message at `index`. */
  predicate IsLoading(ms: seq<ChatMessage>, status: ChatStatus, index: int) {
    status == Streaming && |ms| - 1 == index
  }

  /** Only the last message can be loading, and only while the answer streams. */
  lemma LoadingOnlyLast(ms: seq<ChatMessage>, status: ChatStatus, i: int, j: int)
    requires IsLoading(ms, status, i) && IsLoading(ms, status, j)
    ensures i == j == |ms| - 1 && status == Streaming
  {
  }

  /** `votes.find((vote) => vote.messageId === messageId)` */
  function FindVote(votes: seq<Vote>, messageId: string): (r: Option<Vote>)
    ensures r.None? <==> forall k :: 0 <= k < |votes| ==> votes[k].messageId != messageId
    ensures r.Some? ==> exists k :: 0 <= k < |votes| && votes[k] == r.value && r.value.messageId == messageId
                          && forall l :: 0 <= l < k ==> votes[l].messageId != messageId
  {
    if votes == [] then None
    else if votes[0].messageId == messageId then Some(votes[0])
    else
      var r := FindVote(votes[1..], messageId);
      if r.Some? then
        var k :| 0 <= k < |votes[1..]| && votes[1..][k] == r.value && r.value.messageId == messageId
          && forall l :: 0 <= l < k ==> votes[1..][l].messageId != messageId;
        assert votes[k + 1] == r.value;
        r
      else r
  }

  /** The `vote` prop of a message; absent votes give `undefined`. */
  function MessageVote(votes: Option<seq<Vote>>, messageId: string): Option<Vote> {
    if votes.None? then None else FindVote(votes.value, messageId)
  }

  /** A part whose `state` is "approval-responded". */
  predicate IsApprovalResponded(p: MessagePart) {
    p.ToolPart? && p.state == "approval-responded"
  }

  /** `parts.some(…)` */
  predicate SomePartResponded(parts: seq<MessagePart>) {
    parts != [] && (IsApprovalResponded(parts[0]) || SomePartResponded(parts[1..]))
  }

  /** `messages.some((msg) => msg.parts?.some(…))` */
  predicate SomeMessageResponded(ms: seq<ChatMessage>) {
    ms != [] && (SomePartResponded(ms[0].parts) || SomeMessageResponded(ms[1..]))
  }

  lemma {:induction false} SomePartRespondedIff(parts: seq<MessagePart>)
    ensures SomePartResponded(parts) <==> exists k :: 0 <= k < |parts| && IsApprovalResponded(parts[k])
  {
    if parts != [] {
      SomePartRespondedIff(parts[1..]);
      if exists k :: 0 <= k < |parts| && IsApprovalResponded(parts[k]) {
        var k :| 0 <= k < |parts| && IsApprovalResponded(parts[k]);
        if k > 0 {
          assert parts[1..][k - 1] == parts[k];
        }
      }
    }
  }

  lemma {:induction false} SomeMessageRespondedIff(ms: seq<ChatMessage>)
    ensures SomeMessageResponded(ms) <==>
      exists i, k :: 0 <= i < |ms| && 0 <= k < |ms[i].parts| && IsApprovalResponded(ms[i].parts[k])
  {
    if ms != [] {
      SomeMessageRespondedIff(ms[1..]);
      SomePartRespondedIff(ms[0].parts);
      if exists i, k :: 0 <= i < |ms| && 0 <= k < |ms[i].parts| && IsApprovalResponded(ms[i].parts[k]) {
        var i, k :| 0 <= i < |ms| && 0 <= k < |ms[i].parts| && IsApprovalResponded(ms[i].parts[k]);
        if i > 0 {
          assert ms[1..][i - 1] == ms[i];
        }
      }
      if exists i, k :: 0 <= i < |ms[1..]| && 0 <= k < |ms[1..][i].parts| && IsApprovalResponded(ms[1..][i].parts[k]) {
        var i, k :| 0 <= i < |ms[1..]| && 0 <= k < |ms[1..][i].parts| && IsApprovalResponded(ms[1..][i].parts[k]);
        assert ms[i + 1] == ms[1..][i];
      }
    }
  }

  /** Whether the thinking placeholder is rendered. */
  predicate ShowThinking(ms: seq<ChatMessage>, status: ChatStatus) {
    status == Submitted && !SomeMessageResponded(ms)
  }

  /** The placeholder shows exactly while the request is submitted and no part of any message is an answered approval. */
  lemma ShowThinkingIff(ms: seq<ChatMessage>, status: ChatStatus)
    ensures ShowThinking(ms, status) <==>
      status == Submitted
      && forall i, k :: 0 <= i < |ms| && 0 <= k < |ms[i].parts| ==> !IsApprovalResponded(ms[i].parts[k])
  {
    SomeMessageRespondedIff(ms);
  }
}
