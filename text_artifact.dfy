/**
 * The client side of the text artifact (artifacts/text/client.tsx): how a
 * streamed part changes the artifact and its metadata, which view the
 * document panel shows, when the version actions are disabled, and the file
 * name the DOCX download takes from the `Content-Disposition` header.
 */
module TextArtifact {
  import opened Wrappers
  import opened JsText
  import opened StreamParts

  /**
   * The window in which a text delta opens the panel: the artifact is
   * streaming and its content is longer than 400 and shorter than 450
   * characters before the delta arrives.
   */
  predicate InRevealWindow(a: UIArtifact) {
    a.status == Streaming && 400 < |a.content| < 450
  }

  /** The artifact after a `data-textDelta` part; a payload that is not a string adds nothing. */
  function OnTextDelta(a: UIArtifact, delta: Option<string>): (r: UIArtifact)
    ensures r.content == a.content + delta.GetOr("")
    ensures r.status == Streaming
    ensures r.isVisible <==> a.isVisible || InRevealWindow(a)
    ensures r.title == a.title && r.documentId == a.documentId && r.kind == a.kind
    ensures r.boundingBox == a.boundingBox
  {
    a.(content := a.content + delta.GetOr(""),
       isVisible := if InRevealWindow(a) then true else a.isVisible,
       status := Streaming)
  }

  /** The text artifact's `onStreamPart`, as it acts on the artifact. */
  function StreamPartArtifact(a: UIArtifact, part: StreamPart): (r: UIArtifact)
    ensures !part.DataTextDelta? ==> r == a
  {
    if part.DataTextDelta? then OnTextDelta(a, part.delta) else a
  }

  /** The text artifact's `onStreamPart`, as it acts on the metadata. */
  function StreamPartMetadata(m: TextMetadata, part: StreamPart): (r: TextMetadata)
    ensures part.DataSuggestion? ==> r.suggestions == m.suggestions + [part.suggestion]
    ensures !part.DataSuggestion? ==> r == m
  {
    if part.DataSuggestion? then m.(suggestions := m.suggestions + [part.suggestion]) else m
  }

  /** A run of suggestion parts appends their suggestions in arrival order. */
  function SuggestionsOf(parts: seq<StreamPart>): seq<Suggestion>
  {
    if parts == [] then []
    else (if parts[0].DataSuggestion? then [parts[0].suggestion] else []) + SuggestionsOf(parts[1..])
  }

  function MetadataAfter(m: TextMetadata, parts: seq<StreamPart>): TextMetadata
    decreases |parts|
  {
    if parts == [] then m else MetadataAfter(StreamPartMetadata(m, parts[0]), parts[1..])
  }

  /** The metadata after a run of parts holds the earlier suggestions followed by the new ones, in order. */
  lemma {:induction false} MetadataAfterAppendsSuggestions(m: TextMetadata, parts: seq<StreamPart>)
    ensures MetadataAfter(m, parts).suggestions == m.suggestions + SuggestionsOf(parts)
    decreases |parts|
  {
    if parts != [] {
      var m' := StreamPartMetadata(m, parts[0]);
      MetadataAfterAppendsSuggestions(m', parts[1..]);
      assert m.suggestions + ((if parts[0].DataSuggestion? then [parts[0].suggestion] else []) + SuggestionsOf(parts[1..]))
          == m'.suggestions + SuggestionsOf(parts[1..]);
    }
  }

  datatype Mode = EditMode | DiffMode

  /** What the document panel shows. */
  datatype ContentView =
    | Skeleton
    | DiffView(oldVersion: int, newVersion: int)
    | EmptyState
    | EditorView(content: string, suggestions: seq<Suggestion>)

  /** The `content` renderer of the text artifact. */
  function ContentViewOf(mode: Mode, content: string, currentVersionIndex: int,
                         isLoading: bool, metadata: Option<TextMetadata>): (r: ContentView)
    ensures r.Skeleton? <==> isLoading
    ensures r.DiffView? ==> r.newVersion == currentVersionIndex && r.oldVersion == currentVersionIndex - 1
    ensures r.EditorView? ==> r.content == content && Trim(content) != []
    ensures !isLoading && mode == DiffMode ==> r == DiffView(currentVersionIndex - 1, currentVersionIndex)
    ensures !isLoading && mode == EditMode && Trim(content) != [] ==>
              r == EditorView(content, if metadata.Some? then metadata.value.suggestions else [])
  {
    if isLoading then Skeleton
    else if mode == DiffMode then DiffView(currentVersionIndex - 1, currentVersionIndex)
    else if Trim(content) == [] then EmptyState
    else EditorView(content, if metadata.Some? then metadata.value.suggestions else [])
  }

  /** The empty state is shown exactly when nothing is loading, the mode is not diff and the content is all white space. */
  lemma EmptyStateIff(mode: Mode, content: string, idx: int, isLoading: bool, metadata: Option<TextMetadata>)
    ensures ContentViewOf(mode, content, idx, isLoading, metadata) == EmptyState
        <==> !isLoading && mode == EditMode && forall i :: 0 <= i < |content| ==> IsWhitespace(content[i])
  {
    TrimEmptyIff(content);
  }

  datatype VersionAction = ViewChanges | ViewPrevious | ViewNext

  /** The `isDisabled` of the three version actions. */
  predicate ActionDisabled(action: VersionAction, currentVersionIndex: int, isCurrentVersion: bool)
  {
    match action
    case ViewChanges => currentVersionIndex == 0
    case ViewPrevious => currentVersionIndex == 0
    case ViewNext => isCurrentVersion
  }

  /**
   * With `n` versions and `isCurrent` meaning the last one is shown, every
   * enabled version action stays among existing versions: "View changes"
   * opens the diff of the previous and the shown version, "previous" has a
   * version before it and "next" a version after it.
   */
  lemma EnabledActionsStayInRange(content: string, idx: int, n: int, metadata: Option<TextMetadata>, isCurrent: bool)
    requires 0 <= idx < n && isCurrent == (idx == n - 1)
    ensures !ActionDisabled(ViewChanges, idx, isCurrent) ==>
              ContentViewOf(DiffMode, content, idx, false, metadata) == DiffView(idx - 1, idx) && 0 <= idx - 1
    ensures !ActionDisabled(ViewPrevious, idx, isCurrent) ==> 0 <= idx - 1 < n
    ensures !ActionDisabled(ViewNext, idx, isCurrent) ==> idx + 1 < n
  {
  }

  /** The characters that end the captured file name: `"`, `;` and the line feed. */
  predicate StopsFilename(c: char) {
    c == '"' || c == ';' || c == '\n'
  }

  /** The longest prefix of `s` without a character that ends a file name. */
  function FilenameRun(s: string): (r: string)
    ensures |r| <= |s| && r == s[..|r|]
    ensures forall i :: 0 <= i < |r| ==> !StopsFilename(r[i])
    ensures |r| == |s| || StopsFilename(s[|r|])
  {
    if s == [] || StopsFilename(s[0]) then [] else [s[0]] + FilenameRun(s[1..])
  }

  /**
   * The capture of `/filename="?([^";\n]+)"?/` tried at position `p` and
   * after: an optional quote after `filename=`, then a non-empty run of
   * characters other than `"`, `;` and line feed. The trailing `"?` never
   * changes the capture.
   */
  function FilenameMatchFrom(s: string, p: nat): (r: Option<string>)
    ensures r.Some? ==> r.value != [] && forall i :: 0 <= i < |r.value| ==> !StopsFilename(r.value[i])
    decreases |s| - p
  {
    if p + 9 > |s| then None
    else
      var q := if p + 9 < |s| && s[p + 9] == '"' then p + 10 else p + 9;
      var run := FilenameRun(s[q..]);
      if NameAt(s, p) && run != [] then Some(run)
      else FilenameMatchFrom(s, p + 1)
  }

  /** `filename=` starts at position `p` of `s`. */
  predicate NameAt(s: string, p: nat) {
    p + 9 <= |s| && s[p..p + 9] == "filename="
  }

  /** The name the DOCX download is saved under. */
  function DownloadName(contentDisposition: Option<string>): (r: string)
    ensures r != []
  {
    match contentDisposition
    case None => "documento.docx"
    case Some(h) =>
      match FilenameMatchFrom(h, 0)
      case Some(name) => name
      case None => "documento.docx"
  }

  /** The header the export route sends for a file name. */
  function ExportDisposition(filename: string): string {
    "attachment; filename=\"" + filename + "\""
  }

  lemma {:induction false} FilenameRunOfClean(name: string, rest: string)
    requires forall i :: 0 <= i < |name| ==> !StopsFilename(name[i])
    requires rest == [] || StopsFilename(rest[0])
    ensures FilenameRun(name + rest) == name
    decreases |name|
  {
    if name != [] {
      assert (name + rest)[0] == name[0];
      assert (name + rest)[1..] == name[1..] + rest;
      FilenameRunOfClean(name[1..], rest);
    } else {
      assert name + rest == rest;
    }
  }

  /** The header's fixed parts: the prefix, `filename=` at 12 and the opening quote at 21. */
  lemma ExportDispositionShape(filename: string)
    ensures var h := ExportDisposition(filename);
      && (forall p :: 0 <= p < 12 ==> !NameAt(h, p)) && NameAt(h, 12) && h[21] == '"' && h[22..] == filename + "\""
  {
    var h := ExportDisposition(filename);
    var pre := "attachment; ";
    assert h == pre + "filename=" + "\"" + filename + "\"";
    forall p | 0 <= p < 12 ensures !NameAt(h, p) {
      assert h[p] == pre[p];
      NotNameAt(h, p);
    }
  }

  lemma NotNameAt(s: string, p: nat)
    requires p < |s| && s[p] != 'f'
    ensures !NameAt(s, p)
  {
    if p + 9 <= |s| {
      assert s[p..p + 9][0] == s[p];
    }
  }

  /** The download reads the exported name up to its first `"`, `;` or line feed. */
  lemma DownloadReadsRun(filename: string)
    requires filename != [] && !StopsFilename(filename[0])
    ensures DownloadName(Some(ExportDisposition(filename))) == FilenameRun(filename + "\"")
  {
    var h := ExportDisposition(filename);
    ExportDispositionShape(filename);
    FilenameMatchSkips(h, 0, 12);
    assert (filename + "\"")[0] == filename[0];
    FilenameMatchQuoted(h, 12, filename + "\"");
  }

  /** A match at `p` with an opening quote captures the run after the quote. */
  lemma FilenameMatchQuoted(s: string, p: nat, rest: string)
    requires NameAt(s, p) && p + 9 < |s| && s[p + 9] == '"' && s[p + 10..] == rest
    requires rest != [] && !StopsFilename(rest[0])
    ensures FilenameMatchFrom(s, p) == Some(FilenameRun(rest))
  {
  }

  /**
   * The download keeps the exported name whenever that name is non-empty and
   * holds no `"`, `;` or line feed.
   */
  lemma DownloadNameRoundTrip(filename: string)
    requires filename != []
    requires forall i :: 0 <= i < |filename| ==> !StopsFilename(filename[i])
    ensures DownloadName(Some(ExportDisposition(filename))) == filename
  {
    DownloadReadsRun(filename);
    FilenameRunOfClean(filename, "\"");
  }

  /** A name with a `;` after a clean first part is downloaded as that part alone. */
  lemma {:induction false} DownloadStopsAtSemicolon(head: string, tail: string)
    requires head != [] && forall i :: 0 <= i < |head| ==> !StopsFilename(head[i])
    ensures DownloadName(Some(ExportDisposition(head + ";" + tail))) == head
  {
    var name := head + ";" + tail;
    var rest := ";" + tail + "\"";
    assert name + "\"" == head + rest;
    DownloadReadsRun(name);
    FilenameRunOfClean(head, rest);
  }

  lemma {:induction false} FilenameMatchSkips(s: string, p: nat, q: nat)
    requires p <= q
    requires forall k :: p <= k < q ==> !NameAt(s, k)
    ensures FilenameMatchFrom(s, p) == FilenameMatchFrom(s, q)
    decreases q - p
  {
    if p < q {
      FilenameMatchSkips(s, p + 1, q);
    }
  }
}
