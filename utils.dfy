/**
 * The pure helpers and the retry policy of lib/utils.ts: the UUID check and
 * generator, `documentFetcher`'s retry-on-404 loop, `sanitizeText`, the
 * message helpers and `getDocumentTimestampByIndex`. `Math.random()` is the
 * sequence of random draws handed to the generator, `fetch` the sequence of
 * responses the server gives one after another, and `new Date()` the `now`
 * parameter.
 */
module Utils {
  import opened Wrappers
  import opened JsText
  import opened ChatTypes
  import DocumentCache

  // ---------------------------------------------------------------- UUIDs

  /** `[0-9a-f]` under the `i` flag. */
  predicate IsHexDigit(c: char) {
    ('0' <= c <= '9') || ('a' <= c <= 'f') || ('A' <= c <= 'F')
  }

  predicate AllHex(s: string) {
    forall i :: 0 <= i < |s| ==> IsHexDigit(s[i])
  }

  /** `UUID_REGEX.test(value)`: anchored 8-4-4-4-12 groups of hex digits joined by '-'. */
  predicate IsUUID(s: string) {
    && |s| == 36
    && AllHex(s[..8]) && s[8] == '-'
    && AllHex(s[9..13]) && s[13] == '-'
    && AllHex(s[14..18]) && s[18] == '-'
    && AllHex(s[19..23]) && s[23] == '-'
    && AllHex(s[24..])
  }

  /** The positions of the four dashes. */
  predicate IsDashPosition(i: int) {
    i == 8 || i == 13 || i == 18 || i == 23
  }

  /** The regular expression accepts exactly the 36-character strings with dashes at 8, 13, 18, 23 and hex digits everywhere else. */
  lemma IsUUIDPositions(s: string)
    ensures IsUUID(s) <==>
      |s| == 36 && forall i :: 0 <= i < 36 ==> if IsDashPosition(i) then s[i] == '-' else IsHexDigit(s[i])
  {
    if |s| == 36 && forall i :: 0 <= i < 36 ==> if IsDashPosition(i) then s[i] == '-' else IsHexDigit(s[i]) {
      assert forall i :: 0 <= i < 8 ==> s[..8][i] == s[i];
      assert forall i :: 0 <= i < 4 ==> s[9..13][i] == s[9 + i] && s[14..18][i] == s[14 + i] && s[19..23][i] == s[19 + i];
      assert forall i :: 0 <= i < 12 ==> s[24..][i] == s[24 + i];
    }
    if IsUUID(s) {
      forall i | 0 <= i < 36 && !IsDashPosition(i) ensures IsHexDigit(s[i]) {
        if i < 8 { assert s[..8][i] == s[i]; }
        else if i < 13 { assert s[9..13][i - 9] == s[i]; }
        else if i < 18 { assert s[14..18][i - 14] == s[i]; }
        else if i < 23 { assert s[19..23][i - 19] == s[i]; }
        else { assert s[24..][i - 24] == s[i]; }
      }
    }
  }

  /** The template `generateUUID` fills in. */
  const UuidTemplate: string := "xxxxxxxx-xxxx-4xxx-yxxx-xxxxxxxxxxxx"

  predicate IsPlaceholder(c: char) {
    c == 'x' || c == 'y'
  }

  /** How many random draws filling `t` takes: one per 'x' or 'y'. */
  function Placeholders(t: string): nat {
    if t == [] then 0 else (if IsPlaceholder(t[0]) then 1 else 0) + Placeholders(t[1..])
  }

  /** `v.toString(16)` for one digit: lower-case hex. */
  function HexChar(v: nat): (c: char)
    requires v < 16
    ensures IsHexDigit(c) && !('A' <= c <= 'F')
  {
    if v < 10 then ('0' as int + v) as char else ('a' as int + v - 10) as char
  }

  predicate Draws(rs: seq<nat>) {
    forall k :: 0 <= k < |rs| ==> rs[k] < 16
  }

  /**
   * `t.replace(/[xy]/g, …)` with the draws `rs` taken in order: an 'x'
   * becomes its draw, a 'y' becomes `(r % 4) + 8`, both written in hex;
   * every other character stays.
   */
  function Fill(t: string, rs: seq<nat>): (r: string)
    requires Draws(rs) && |rs| >= Placeholders(t)
    ensures |r| == |t|
    ensures forall i :: 0 <= i < |t| && !IsPlaceholder(t[i]) ==> r[i] == t[i]
    ensures forall i :: 0 <= i < |t| && t[i] == 'x' ==> IsHexDigit(r[i])
    ensures forall i :: 0 <= i < |t| && t[i] == 'y' ==> r[i] in "89ab"
  {
    if t == [] then []
    else if t[0] == 'x' then [HexChar(rs[0])] + Fill(t[1..], rs[1..])
    else if t[0] == 'y' then [HexChar(rs[0] % 4 + 8)] + Fill(t[1..], rs[1..])
    else [t[0]] + Fill(t[1..], rs)
  }

  lemma {:induction false} PlaceholdersAppend(a: string, b: string)
    ensures Placeholders(a + b) == Placeholders(a) + Placeholders(b)
  {
    if a == [] {
      assert a + b == b;
    } else {
      assert (a + b)[1..] == a[1..] + b;
      PlaceholdersAppend(a[1..], b);
    }
  }

  lemma TemplateGroups()
    ensures UuidTemplate == "xxxxxxxx" + "-xxxx" + "-4xxx" + "-yxxx" + "-xxxxxxxxxxxx"
  {
  }

  lemma GroupPlaceholders8() ensures Placeholders("xxxxxxxx") == 8 {}
  lemma GroupPlaceholders12() ensures Placeholders("-xxxxxxxxxxxx") == 12 {}
  lemma GroupPlaceholdersMiddle()
    ensures Placeholders("-xxxx") == 4 && Placeholders("-4xxx") == 3 && Placeholders("-yxxx") == 4
  {
  }

  /** The template takes 31 draws: 30 for its 'x's and one for its 'y'. */
  lemma TemplateDraws()
    ensures Placeholders(UuidTemplate) == 31
  {
    var a, b, c, d, e := "xxxxxxxx", "-xxxx", "-4xxx", "-yxxx", "-xxxxxxxxxxxx";
    TemplateGroups();
    PlaceholdersAppend(a, b);
    PlaceholdersAppend(a + b, c);
    PlaceholdersAppend(a + b + c, d);
    PlaceholdersAppend(a + b + c + d, e);
    GroupPlaceholders8();
    GroupPlaceholders12();
    GroupPlaceholdersMiddle();
  }

  /** Dashes at 8, 13, 18, 23, the version digit '4' at 14, a 'y' at 19 and 'x' or 'y' everywhere else. */
  predicate IsUuidTemplate(t: string) {
    && |t| == 36
    && (forall i :: 0 <= i < 36 && IsDashPosition(i) ==> t[i] == '-')
    && (forall i :: 0 <= i < 36 && !IsDashPosition(i) && i != 14 ==> IsPlaceholder(t[i]))
    && t[14] == '4' && t[19] == 'y'
  }

  lemma TemplateShape()
    ensures IsUuidTemplate(UuidTemplate)
  {
    TemplateFirstHalf();
    TemplateSecondHalf();
  }

  lemma TemplateFirstHalf()
    ensures |UuidTemplate| == 36
    ensures forall i :: 0 <= i < 18 && IsDashPosition(i) ==> UuidTemplate[i] == '-'
    ensures forall i :: 0 <= i < 18 && !IsDashPosition(i) && i != 14 ==> IsPlaceholder(UuidTemplate[i])
    ensures UuidTemplate[14] == '4'
  {
  }

  lemma TemplateSecondHalf()
    ensures |UuidTemplate| == 36
    ensures forall i :: 18 <= i < 36 && IsDashPosition(i) ==> UuidTemplate[i] == '-'
    ensures forall i :: 18 <= i < 36 && !IsDashPosition(i) ==> IsPlaceholder(UuidTemplate[i])
    ensures UuidTemplate[19] == 'y'
  {
  }

  /** `generateUUID()` given the 31 draws of `Math.floor(Math.random() * 16)`. */
  function GenerateUUID(rs: seq<nat>): (r: string)
    requires Draws(rs) && |rs| == 31
    ensures IsUUID(r)
    ensures r[14] == '4' && r[19] in "89ab"
  {
    TemplateDraws();
    TemplateShape();
    FilledTemplateShape(UuidTemplate, rs);
    Fill(UuidTemplate, rs)
  }

  /** Filling any template of the UUID shape gives a string the UUID check accepts. */
  lemma FilledTemplateShape(t: string, rs: seq<nat>)
    requires IsUuidTemplate(t)
    requires Draws(rs) && |rs| >= Placeholders(t)
    ensures var r := Fill(t, rs);
      IsUUID(r) && r[14] == '4' && r[19] in "89ab"
  {
    var r := Fill(t, rs);
    forall i | 0 <= i < 36 ensures if IsDashPosition(i) then r[i] == '-' else IsHexDigit(r[i]) {
      if t[i] == 'y' {
        assert r[i] in "89ab";
      }
    }
    IsUUIDPositions(r);
  }

  // ------------------------------------------------------ documentFetcher

  /** A response of `fetch(url)`: its status and its body. */
  datatype Response = Response(status: int, body: string)

  /** `response.ok` */
  predicate IsOk(resp: Response) {
    200 <= resp.status <= 299
  }

  /** How `documentFetcher` ends: the body of an ok response, a `ChatbotError` built from a failed response's status, or the rejection of `fetch` itself. */
  datatype FetchOutcome = Returned(body: string) | Thrown(status: int) | NetworkError

  /** `DOCUMENT_FETCH_MAX_RETRIES` */
  const MaxRetries: nat := 4
  /** `DOCUMENT_FETCH_INITIAL_MS` */
  const InitialMs: nat := 300

  /** A GET of one document by id, without the version timestamp: the requests worth retrying. */
  predicate IsDocumentGet(url: string) {
    Contains(url, "/api/document") && Contains(url, "id=") && !Contains(url, "timestamp=")
  }

  function Attempts(isDocumentGet: bool): nat {
    if isDocumentGet then MaxRetries else 1
  }

  function Pow2(k: nat): (r: nat)
    ensures r >= 1
  {
    if k == 0 then 1 else 2 * Pow2(k - 1)
  }

  /** The wait after a 404 on attempt `k`. */
  function Delay(k: nat): nat {
    InitialMs * Pow2(k)
  }

  /** Attempt `a` got an answer, the answer was a 404, and the URL is one whose 404 is retried. */
  predicate Retryable(isDocumentGet: bool, responses: seq<Response>, a: nat) {
    isDocumentGet && a < |responses| && !IsOk(responses[a]) && responses[a].status == 404
  }

  /** The attempt the loop ends on: the first that is not a retried 404, or the last allowed. */
  function StopAttempt(isDocumentGet: bool, responses: seq<Response>, a: nat): (s: nat)
    requires a < Attempts(isDocumentGet)
    ensures a <= s < Attempts(isDocumentGet)
    ensures forall k :: a <= k < s ==> Retryable(isDocumentGet, responses, k)
    ensures s + 1 == Attempts(isDocumentGet) || !Retryable(isDocumentGet, responses, s)
    decreases Attempts(isDocumentGet) - a
  {
    if a + 1 >= Attempts(isDocumentGet) || !Retryable(isDocumentGet, responses, a) then a
    else StopAttempt(isDocumentGet, responses, a + 1)
  }

  /** The stop attempt is the one attempt that follows only retried 404s and is itself the last allowed or not a retried 404. */
  lemma StopAttemptAt(isDocumentGet: bool, responses: seq<Response>, a: nat)
    requires a < Attempts(isDocumentGet)
    requires forall k :: 0 <= k < a ==> Retryable(isDocumentGet, responses, k)
    requires a + 1 == Attempts(isDocumentGet) || !Retryable(isDocumentGet, responses, a)
    ensures StopAttempt(isDocumentGet, responses, 0) == a
  {
  }

  /** What the attempt that ends the loop produces. */
  function OutcomeAt(responses: seq<Response>, a: nat): FetchOutcome {
    if a >= |responses| then NetworkError
    else if IsOk(responses[a]) then Returned(responses[a].body)
    else Thrown(responses[a].status)
  }

  /** A whole run of `documentFetcher`: how it ends, how many fetches it made, the waits in between. */
  datatype FetchRun = FetchRun(outcome: FetchOutcome, fetches: nat, delays: seq<nat>)

  function Delays(n: nat): (d: seq<nat>)
    ensures |d| == n && forall k :: 0 <= k < n ==> d[k] == Delay(k)
  {
    seq(n, k requires 0 <= k < n => Delay(k))
  }

  /** The run `documentFetcher(url)` makes against the successive `responses`. */
  function DocumentFetchRun(url: string, responses: seq<Response>): FetchRun {
    var s := StopAttempt(IsDocumentGet(url), responses, 0);
    FetchRun(OutcomeAt(responses, s), s + 1, Delays(s))
  }

  /** `documentFetcher(url)`, with the waits recorded instead of slept. */
  method DocumentFetcher(url: string, responses: seq<Response>) returns (outcome: FetchOutcome, fetches: nat, delays: seq<nat>)
    ensures FetchRun(outcome, fetches, delays) == DocumentFetchRun(url, responses)
  {
    var isDocumentGet := IsDocumentGet(url);
    var lastResponse: Option<Response> := None;
    fetches := 0;
    delays := [];
    var attempt := 0;
    while attempt < Attempts(isDocumentGet)
      invariant attempt <= Attempts(isDocumentGet)
      invariant fetches == attempt && delays == Delays(Min(attempt, MaxRetries - 1))
      invariant forall k :: 0 <= k < attempt ==> Retryable(isDocumentGet, responses, k)
      invariant attempt > 0 ==> attempt - 1 < |responses| && lastResponse == Some(responses[attempt - 1])
    {
      fetches := fetches + 1;
      if attempt >= |responses| {
        StopAttemptAt(isDocumentGet, responses, attempt);
        return NetworkError, fetches, delays;
      }
      lastResponse := Some(responses[attempt]);
      if IsOk(lastResponse.value) {
        StopAttemptAt(isDocumentGet, responses, attempt);
        return Returned(lastResponse.value.body), fetches, delays;
      }
      if lastResponse.value.status != 404 || !isDocumentGet {
        StopAttemptAt(isDocumentGet, responses, attempt);
        return Thrown(lastResponse.value.status), fetches, delays;
      }
      if attempt < MaxRetries - 1 {
        delays := delays + [InitialMs * Pow2(attempt)];
      }
      attempt := attempt + 1;
    }
    // the loop ran at least once, so the "No response received" branch is never taken
    assert lastResponse.Some? && Retryable(isDocumentGet, responses, attempt - 1);
    StopAttemptAt(isDocumentGet, responses, attempt - 1);
    return Thrown(lastResponse.value.status), fetches, delays;
  }

  /** A document GET makes at most four fetches; any other URL makes exactly one. */
  lemma FetchCount(url: string, responses: seq<Response>)
    ensures var run := DocumentFetchRun(url, responses);
      1 <= run.fetches && (if IsDocumentGet(url) then run.fetches <= MaxRetries else run.fetches == 1)
  {
  }

  /**
   * A fetch is repeated only after a 404 on a document GET; the run ends at
   * the first ok response (returning its body), the first other failure
   * (throwing at once), or the fourth 404.
   */
  lemma {:induction false} RetryPolicy(url: string, responses: seq<Response>)
    ensures var run := DocumentFetchRun(url, responses);
      forall k :: 0 <= k < run.fetches - 1 ==> IsDocumentGet(url) && k < |responses| && responses[k].status == 404
    ensures var run := DocumentFetchRun(url, responses);
      && run.outcome == OutcomeAt(responses, run.fetches - 1)
      && (run.outcome.Returned? ==> IsOk(responses[run.fetches - 1]) && run.outcome.body == responses[run.fetches - 1].body)
      && (run.outcome.Thrown? ==> !IsOk(responses[run.fetches - 1]))
      && (run.outcome.Thrown? && run.outcome.status == 404 && IsDocumentGet(url) ==> run.fetches == MaxRetries)
  {
    var isDoc := IsDocumentGet(url);
    var s := StopAttempt(isDoc, responses, 0);
    assert DocumentFetchRun(url, responses) == FetchRun(OutcomeAt(responses, s), s + 1, Delays(s));
    var run := DocumentFetchRun(url, responses);
    forall k | 0 <= k < run.fetches - 1 ensures IsDocumentGet(url) && k < |responses| && responses[k].status == 404 {
      assert Retryable(isDoc, responses, k);
    }
    assert forall k :: 0 <= k < run.fetches - 1 ==> IsDocumentGet(url) && k < |responses| && responses[k].status == 404;
  }

  /** Every fetch but the last is followed by a wait, the k-th of 300·2^k ms. */
  lemma DelaySchedule(url: string, responses: seq<Response>)
    ensures var run := DocumentFetchRun(url, responses);
      |run.delays| == run.fetches - 1 && forall k :: 0 <= k < |run.delays| ==> run.delays[k] == 300 * Pow2(k)
  {
  }

  // ------------------------------------------------------- sanitizeText

  const FunctionCallMarker: string := "<has_function_call>"

  /** `sanitizeText(text)`: `text.replace("<has_function_call>", "")`. */
  function SanitizeText(text: string): string {
    ReplaceFirst(text, FunctionCallMarker, "")
  }

  /**
   * Only the first marker goes: without a marker the text is unchanged;
   * otherwise putting the marker back where the first one stood gives the
   * original, and the text before it held no marker.
   */
  lemma SanitizeTextRemovesFirst(text: string)
    ensures !Contains(text, FunctionCallMarker) ==> SanitizeText(text) == text
    ensures Contains(text, FunctionCallMarker) ==>
      var i := IndexOf(text, FunctionCallMarker);
      var r := SanitizeText(text);
      && |r| == |text| - |FunctionCallMarker|
      && r[..i] + FunctionCallMarker + r[i..] == text
      && !Contains(text[..i], FunctionCallMarker)
  {
    if Contains(text, FunctionCallMarker) {
      var i := IndexOf(text, FunctionCallMarker);
      var r := SanitizeText(text);
      assert r == text[..i] + text[i + |FunctionCallMarker|..];
      assert r[..i] == text[..i] && r[i..] == text[i + |FunctionCallMarker|..];
      assert text == text[..i] + text[i..i + |FunctionCallMarker|] + text[i + |FunctionCallMarker|..];
      if Contains(text[..i], FunctionCallMarker) {
        var j := IndexOf(text[..i], FunctionCallMarker);
        assert text[..i][j..j + |FunctionCallMarker|] == text[j..j + |FunctionCallMarker|];
        assert OccursAt(text, FunctionCallMarker, j);
      }
    }
  }

  // ------------------------------------------------------ message helpers

  /** `getTextFromMessage`: the text parts' texts joined with "". */
  function GetTextFromMessage(m: ChatMessage): string {
    Concat(TextsOf(m.parts))
  }

  /** A text part adds its text at the end; any other part adds nothing. */
  lemma TextFromMessageAppend(id: string, role: Role, parts: seq<MessagePart>, p: MessagePart)
    ensures GetTextFromMessage(ChatMessage(id, role, parts + [p]))
      == GetTextFromMessage(ChatMessage(id, role, parts)) + (if p.TextPart? then p.text else "")
  {
    TextsOfAppend(parts, [p]);
    assert TextsOf([p]) == (if p.TextPart? then [p.text] else []) + TextsOf([]);
    ConcatAppend(TextsOf(parts), TextsOf([p]));
    assert Concat(TextsOf([p])) == (if p.TextPart? then p.text else "");
  }

  /** `messages.filter((message) => message.role === "user")` */
  function UserMessages(ms: seq<ChatMessage>): (r: seq<ChatMessage>)
    ensures |r| <= |ms|
  {
    if ms == [] then []
    else UserMessages(ms[..|ms| - 1]) + (if ms[|ms| - 1].role == User then [ms[|ms| - 1]] else [])
  }

  /** `getMostRecentUserMessage`: `.at(-1)` of the user messages, `undefined` as `None`. */
  function GetMostRecentUserMessage(ms: seq<ChatMessage>): Option<ChatMessage> {
    var u := UserMessages(ms);
    if u == [] then None else Some(u[|u| - 1])
  }

  /**
   * There is no result exactly when no message is from the user; otherwise
   * the result is a user message with no user message after it.
   */
  lemma MostRecentUserMessageIff(ms: seq<ChatMessage>)
    ensures GetMostRecentUserMessage(ms).None? <==> forall i :: 0 <= i < |ms| ==> ms[i].role != User
    ensures GetMostRecentUserMessage(ms).Some? ==>
      exists i :: 0 <= i < |ms| && ms[i] == GetMostRecentUserMessage(ms).value && ms[i].role == User
        && forall j :: i < j < |ms| ==> ms[j].role != User
  {
    MostRecentIsLastUserIndex(ms);
  }

  /** The index of the last user message, or -1 when there is none. */
  function LastUserIndex(ms: seq<ChatMessage>): (r: int)
    ensures -1 <= r < |ms|
    ensures r >= 0 ==> ms[r].role == User
    ensures forall j :: r < j < |ms| ==> ms[j].role != User
  {
    if ms == [] then -1
    else if ms[|ms| - 1].role == User then |ms| - 1
    else
      var r := LastUserIndex(ms[..|ms| - 1]);
      assert forall j :: r < j < |ms| - 1 ==> ms[..|ms| - 1][j] == ms[j];
      r
  }

  /** The most recent user message is the message at the last user index. */
  lemma {:induction false} MostRecentIsLastUserIndex(ms: seq<ChatMessage>)
    ensures GetMostRecentUserMessage(ms) == if LastUserIndex(ms) < 0 then None else Some(ms[LastUserIndex(ms)])
    decreases |ms|
  {
    if ms != [] {
      var n := |ms| - 1;
      var init := ms[..n];
      MostRecentIsLastUserIndex(init);
      if ms[n].role == User {
        assert UserMessages(ms) == UserMessages(init) + [ms[n]];
      } else {
        assert UserMessages(ms) == UserMessages(init);
        if LastUserIndex(init) >= 0 {
          assert ms[LastUserIndex(init)] == init[LastUserIndex(init)];
        }
      }
    }
  }

  /** A response message; only its id matters here. */
  datatype ResponseMessage = ResponseMessage(id: string, role: Role)

  /** `getTrailingMessageId`: the id of the last response message, `null` as `None`. */
  function GetTrailingMessageId(messages: seq<ResponseMessage>): (r: Option<string>)
    ensures r.None? <==> messages == []
  {
    if messages == [] then None else Some(messages[|messages| - 1].id)
  }

  /** Whatever came before, the trailing id is the id of the message appended last. */
  lemma TrailingMessageIdAppend(messages: seq<ResponseMessage>, m: ResponseMessage)
    ensures GetTrailingMessageId(messages + [m]) == Some(m.id)
  {
  }

  // ------------------------------------------ getDocumentTimestampByIndex

  /** What a call to `getDocumentTimestampByIndex` comes to: a timestamp, or the `TypeError` of reading `createdAt` of `undefined`. */
  datatype TimestampOutcome = Timestamp(t: int) | TypeError

  /**
   * `getDocumentTimestampByIndex` as written: the guard is `index > length`,
   * so an index equal to the length (or a negative one) reads past the array.
   * `documents` may be absent; `now` is `new Date()`.
   */
  function TimestampByIndexAsWritten(documents: Option<seq<DocumentCache.Document>>, index: int, now: int): TimestampOutcome {
    if documents.None? then Timestamp(now)
    else if index > |documents.value| then Timestamp(now)
    else if 0 <= index < |documents.value| then Timestamp(documents.value[index].createdAt)
    else TypeError
  }

  /** The index one past the end slips through the guard. */
  lemma TimestampAtLengthFails(d: DocumentCache.Document, now: int)
    ensures TimestampByIndexAsWritten(Some([d]), 1, now) == TypeError
  {
  }

  /** The guard the function evidently means: any index at or past the end falls back to `now`. */
  function TimestampByIndex(documents: Option<seq<DocumentCache.Document>>, index: nat, now: int): (r: TimestampOutcome)
    ensures r.Timestamp?
    ensures documents.Some? && index < |documents.value| ==> r.t == documents.value[index].createdAt
    ensures documents.None? || index >= |documents.value| ==> r.t == now
  {
    if documents.None? then Timestamp(now)
    else if index >= |documents.value| then Timestamp(now)
    else Timestamp(documents.value[index].createdAt)
  }

  /** Where the original does not crash, the corrected function agrees with it. */
  lemma TimestampCorrectionAgrees(documents: Option<seq<DocumentCache.Document>>, index: nat, now: int)
    requires TimestampByIndexAsWritten(documents, index, now).Timestamp?
    ensures TimestampByIndex(documents, index, now) == TimestampByIndexAsWritten(documents, index, now)
  {
  }
}
