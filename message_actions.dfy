/**
 * The logic of components/message-actions.tsx: which actions a message
 * offers, the text the copy action puts on the clipboard, the vote
 * buttons' disabled flags, the update of the cached vote list after a
 * vote, and the memo comparator. The PATCH /api/vote request and the toasts
 * are left out; the cache update is the updater SWR's `mutate` applies.
 */
module MessageActions {
  import opened Wrappers
  import opened JsText
  import opened ChatTypes
  import MessagesView

  /** `textFromParts`: the text parts joined by line feeds, then trimmed. */
  function CopyText(m: ChatMessage): string {
    Trim(Join(TextsOf(m.parts), "\n"))
  }

  /** `handleCopy`: the text copied, or `None` when there is none and an error is shown instead. */
  function HandleCopy(m: ChatMessage): (r: Option<string>)
    ensures r.Some? ==> r.value == CopyText(m) && r.value != ""
    ensures r.None? <==> CopyText(m) == ""
  {
    var text := CopyText(m);
    if text == "" then None else Some(text)
  }

  /** Some text of `texts` has a character other than white space. */
  predicate HasVisibleText(texts: seq<string>) {
    exists k, i :: 0 <= k < |texts| && 0 <= i < |texts[k]| && !IsWhitespace(texts[k][i])
  }

  /** A visible character of the joined text comes from one of the parts. */
  lemma {:induction false} JoinVisibleFromPart(texts: seq<string>, i: int)
    requires 0 <= i < |Join(texts, "\n")| && !IsWhitespace(Join(texts, "\n")[i])
    ensures HasVisibleText(texts)
  {
    var j := Join(texts, "\n");
    if |texts| == 1 {
      assert !IsWhitespace(texts[0][i]);
    } else {
      var rest := Join(texts[1..], "\n");
      assert j == texts[0] + "\n" + rest;
      if i < |texts[0]| {
        assert j[i] == texts[0][i];
      } else {
        var i' := i - |texts[0]| - 1;
        assert j[i] == rest[i'];
        JoinVisibleFromPart(texts[1..], i');
        var k, x :| 0 <= k < |texts[1..]| && 0 <= x < |texts[1..][k]| && !IsWhitespace(texts[1..][k][x]);
        assert texts[k + 1][x] == texts[1..][k][x];
      }
    }
  }

  /** A visible character of part `k` appears in the joined text. */
  lemma {:induction false} PartVisibleInJoin(texts: seq<string>, k: int, x: int)
    requires 0 <= k < |texts| && 0 <= x < |texts[k]| && !IsWhitespace(texts[k][x])
    ensures exists i :: 0 <= i < |Join(texts, "\n")| && !IsWhitespace(Join(texts, "\n")[i])
  {
    var j := Join(texts, "\n");
    if |texts| == 1 {
      assert j[x] == texts[0][x];
    } else {
      var rest := Join(texts[1..], "\n");
      assert j == texts[0] + "\n" + rest;
      if k == 0 {
        assert j[x] == texts[0][x];
      } else {
        assert texts[1..][k - 1] == texts[k];
        PartVisibleInJoin(texts[1..], k - 1, x);
        var i' :| 0 <= i' < |rest| && !IsWhitespace(rest[i']);
        assert j[|texts[0]| + 1 + i'] == rest[i'];
      }
    }
  }

  /** The joined text has a visible character exactly when one of the parts has. */
  lemma JoinVisibleIff(texts: seq<string>)
    ensures (exists i :: 0 <= i < |Join(texts, "\n")| && !IsWhitespace(Join(texts, "\n")[i])) <==> HasVisibleText(texts)
  {
    var j := Join(texts, "\n");
    if exists i :: 0 <= i < |j| && !IsWhitespace(j[i]) {
      var i :| 0 <= i < |j| && !IsWhitespace(j[i]);
      JoinVisibleFromPart(texts, i);
    }
    if HasVisibleText(texts) {
      var k, x :| 0 <= k < |texts| && 0 <= x < |texts[k]| && !IsWhitespace(texts[k][x]);
      PartVisibleInJoin(texts, k, x);
    }
  }

  /** Copying is refused exactly when no text part of the message has a visible character. */
  lemma CopyRefusedIff(m: ChatMessage)
    ensures HandleCopy(m).None? <==> !HasVisibleText(TextsOf(m.parts))
  {
    var j := Join(TextsOf(m.parts), "\n");
    TrimEmptyIff(j);
    JoinVisibleIff(TextsOf(m.parts));
    assert HandleCopy(m).None? <==> Trim(j) == [];
  }

  /** What the action bar shows. */
  datatype ActionsView = NoActions | UserActions(edit: bool) | AssistantActions

  /** User messages get copy (and edit when `setMode` is given); others get copy and the two vote buttons. */
  function ActionsFor(m: ChatMessage, isLoading: bool, hasSetMode: bool): (r: ActionsView)
    ensures r == NoActions <==> isLoading
  {
    if isLoading then NoActions
    else if m.role == User then UserActions(hasSetMode)
    else AssistantActions
  }

  /** `disabled={vote?.isUpvoted}` */
  predicate UpvoteDisabled(vote: Option<Vote>) {
    vote.Some? && vote.value.isUpvoted
  }

  /** `disabled={vote && !vote.isUpvoted}` */
  predicate DownvoteDisabled(vote: Option<Vote>) {
    vote.Some? && !vote.value.isUpvoted
  }

  /** At most one vote button is disabled, and neither before the message is voted on. */
  lemma VoteButtons(vote: Option<Vote>)
    ensures !(UpvoteDisabled(vote) && DownvoteDisabled(vote))
    ensures vote.None? ==> !UpvoteDisabled(vote) && !DownvoteDisabled(vote)
    ensures vote.Some? ==> UpvoteDisabled(vote) != DownvoteDisabled(vote)
  {
  }

  /** `currentVotes.filter((v) => v.messageId !== messageId)` */
  function VotesWithout(votes: seq<Vote>, messageId: string): (r: seq<Vote>)
    ensures forall k :: 0 <= k < |r| ==> r[k].messageId != messageId
  {
    if votes == [] then []
    else (if votes[0].messageId == messageId then [] else [votes[0]]) + VotesWithout(votes[1..], messageId)
  }

  /** The filter keeps every vote for another message and invents none. */
  lemma {:induction false} VotesWithoutKeeps(votes: seq<Vote>, messageId: string)
    ensures forall v :: v in votes && v.messageId != messageId ==> v in VotesWithout(votes, messageId)
    ensures forall v :: v in VotesWithout(votes, messageId) ==> v in votes
  {
    if votes != [] {
      VotesWithoutKeeps(votes[1..], messageId);
    }
  }

  lemma {:induction false} VotesWithoutAppend(a: seq<Vote>, b: seq<Vote>, messageId: string)
    ensures VotesWithout(a + b, messageId) == VotesWithout(a, messageId) + VotesWithout(b, messageId)
  {
    if a == [] {
      assert a + b == b;
    } else {
      var head := if a[0].messageId == messageId then [] else [a[0]];
      assert (a + b)[0] == a[0] && (a + b)[1..] == a[1..] + b;
      assert VotesWithout(a + b, messageId) == head + VotesWithout(a[1..] + b, messageId);
      VotesWithoutAppend(a[1..], b, messageId);
    }
  }

  /** The cache updater of both vote buttons: a missing cache becomes `[]`. */
  function UpdatedVotes(current: Option<seq<Vote>>, chatId: string, messageId: string, isUpvoted: bool): seq<Vote> {
    if current.None? then []
    else VotesWithout(current.value, messageId) + [Vote(chatId, messageId, isUpvoted)]
  }

  /**
   * After a vote the cache holds exactly one vote for the message, the new
   * one, at the end; the other messages' votes keep their order.
   */
  lemma UpdatedVotesShape(votes: seq<Vote>, chatId: string, messageId: string, isUpvoted: bool)
    ensures var r := UpdatedVotes(Some(votes), chatId, messageId, isUpvoted);
      && |r| >= 1 && r[|r| - 1] == Vote(chatId, messageId, isUpvoted)
      && (forall k :: 0 <= k < |r| - 1 ==> r[k].messageId != messageId)
      && r[..|r| - 1] == VotesWithout(votes, messageId)
  {
    var r := UpdatedVotes(Some(votes), chatId, messageId, isUpvoted);
    assert r[..|r| - 1] == VotesWithout(votes, messageId);
  }

  /** The message list then shows the new vote for the message, which disables the button just used. */
  lemma VoteThenShown(votes: seq<Vote>, chatId: string, messageId: string, isUpvoted: bool)
    ensures var shown := MessagesView.MessageVote(Some(UpdatedVotes(Some(votes), chatId, messageId, isUpvoted)), messageId);
      && shown == Some(Vote(chatId, messageId, isUpvoted))
      && (isUpvoted ==> UpvoteDisabled(shown) && !DownvoteDisabled(shown))
      && (!isUpvoted ==> DownvoteDisabled(shown) && !UpvoteDisabled(shown))
  {
    var r := UpdatedVotes(Some(votes), chatId, messageId, isUpvoted);
    UpdatedVotesShape(votes, chatId, messageId, isUpvoted);
    var f := MessagesView.FindVote(r, messageId);
    assert r[|r| - 1].messageId == messageId;
    var k :| 0 <= k < |r| && r[k] == f.value && f.value.messageId == messageId
      && forall l :: 0 <= l < k ==> r[l].messageId != messageId;
    assert k == |r| - 1;
  }

  /** Voting the same way twice leaves the cache as one vote did. */
  lemma {:induction false} UpdatedVotesIdempotent(votes: seq<Vote>, chatId: string, messageId: string, isUpvoted: bool)
    ensures var once := UpdatedVotes(Some(votes), chatId, messageId, isUpvoted);
      UpdatedVotes(Some(once), chatId, messageId, isUpvoted) == once
  {
    var w := VotesWithout(votes, messageId);
    var v := Vote(chatId, messageId, isUpvoted);
    VotesWithoutAppend(w, [v], messageId);
    VotesWithoutClean(w, messageId);
    assert VotesWithout([v], messageId) == [];
  }

  lemma {:induction false} VotesWithoutClean(votes: seq<Vote>, messageId: string)
    requires forall k :: 0 <= k < |votes| ==> votes[k].messageId != messageId
    ensures VotesWithout(votes, messageId) == votes
  {
    if votes != [] {
      VotesWithoutClean(votes[1..], messageId);
    }
  }

  /** The props the memo comparator reads. */
  datatype ActionsProps = ActionsProps(vote: Option<Vote>, isLoading: bool)

  /** The comparator: re-render only when the vote (deeply) or the loading flag changed. */
  predicate SameProps(prev: ActionsProps, next: ActionsProps) {
    if prev.vote != next.vote then false
    else if prev.isLoading != next.isLoading then false
    else true
  }

  lemma SamePropsIff(prev: ActionsProps, next: ActionsProps)
    ensures SameProps(prev, next) <==> prev == next
  {
  }
}
