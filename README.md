# Revisor de Defesas chat core, in Dafny

This project models the sequential core of a legal-assistant chat app for Brazilian labour cases. The app is a Next.js and TypeScript application. Its main flow is the *Revisor de Defesas*, which runs in three steps:

- The lawyer attaches the initial petition (PI) and the defence (Contestação). The assistant answers with a Gate 0.5 summary between two fixed delimiters.
- The lawyer replies `CONFIRMAR`, or `CORRIGIR: …` with corrections.
- In FASE B a tool generates three documents and streams them to the browser's artifact panel. Each document can be exported as DOCX.

The model covers:

- **Document emission and delivery.** The tool's ordered event trace has one `kind, id, title, clear, text chunks of 400 characters, finish` block per document. Each document is persisted after its block, and only for a signed-in user. A rejected generation or a failed save ends the run with no result. The client folds that trace into the artifact record through the stream handler's reducer and the text artifact's `onStreamPart`. The end-to-end theorem: replaying a document's block leaves the panel holding exactly that document, idle.
- **Text transforms.**
  - Markdown-ish content becomes DOCX paragraphs, with `**bold**` segments that round-trip.
  - DOCX file names are sanitised, and the name the download action reads back is modelled.
  - A model template is chosen from a title, with a memoised loader.
  - The system-prompt builder and its static validator.
  - UUID check and generation, and the retry policy of the document fetcher.
- **Stateful tables.** The document and DOCX caches: two time-limited maps keyed by user and document.
- **Gate 0.5 and the UI state around it.**
  - Finding the summary and the reply, and choosing the phase banner.
  - The per-message flags.
  - The composer's attachment list: submit gate, message parts, upload routing and per-URL updates.
  - The attachment preview, the checklist, the prompt menu, the chat header's dialogs and knowledge selection, and the vote cache.
  - The tool-result widgets, and the middleware's routing decision.

Each module follows one source file.

- Code that changes state step by step is a class with the source's state as fields: the tool's writer, the stream handler, the caches, the template loader, the composer, the prompt menu and the chat header. Its methods are proved against specification functions.
- Loops are methods with invariants: the backward Gate 0.5 search, the attachment-part loop, `processFiles`, the fetch retry loop, the validator and the bold-segment parser.
- Everything else is functions with lemmas.

Time, randomness, file reads, network answers, the session-token lookup and the generated document contents are parameters.

## Model

| member | source | states |
|---|---|---|
| JsText.Trim | components/preview-attachment.tsx:18 | the trimmed text is empty or starts and ends with a character other than white space, and is no longer than the input; `JsText.TrimIsSlice` states which slice it is |
| JsText.TrimIsSlice | components/preview-attachment.tsx:18 | the trimmed text is the slice of the input between two positions, and every character before the first and from the second on is white space |
| JsText.TrimIdempotent | components/preview-attachment.tsx:18-20 | trimming trimmed text changes nothing |
| JsText.TrimEmptyIff | components/preview-attachment.tsx:18-19 | the trimmed text is empty exactly when every character is white space |
| JsText.IndexOf | components/revisor-phase-banner.tsx:39-40 | the position found holds the pattern and no earlier position does; -1 means no position does |
| JsText.ContainsIff | components/revisor-phase-banner.tsx:39-40 | `includes` holds exactly when the pattern occurs somewhere |
| JsText.ContainsAppend | components/revisor-phase-banner.tsx:36-41 | text that contains a pattern still contains it with text added before or after |
| JsText.WithoutMembers | components/chat-header.tsx:121 | the filter removes every occurrence of the value, keeps every other value, and adds none |
| JsText.WithoutAppend | components/chat-header.tsx:121 | the filter distributes over concatenation, so order is kept |
| JsText.WithoutAbsent | components/chat-header.tsx:121 | filtering out a value that does not occur changes nothing |
| ChatTypes.TextsOfAppend | lib/utils.ts:193-198 | the texts of consecutive parts are the texts of each stretch, in order |
| TextArtifact.OnTextDelta | artifacts/text/client.tsx:43-59 | a text delta appends its string payload (nothing when the payload is not a string) to the content, sets the status to streaming, keeps the identity fields and box, and makes the panel visible exactly when it already was or the artifact was streaming with more than 400 and fewer than 450 characters |
| TextArtifact.StreamPartArtifact | artifacts/text/client.tsx:33-60 | every part other than a text delta leaves the artifact unchanged |
| TextArtifact.StreamPartMetadata | artifacts/text/client.tsx:34-41 | a suggestion part appends its suggestion to the metadata; every other part leaves the metadata unchanged |
| TextArtifact.MetadataAfterAppendsSuggestions | artifacts/text/client.tsx:34-41 | after a run of parts the suggestions are the earlier ones followed by the run's suggestions in arrival order |
| TextArtifact.ContentViewOf | artifacts/text/client.tsx:72-119 | the skeleton shows exactly while loading; in diff mode, when not loading, the view is the diff of the version before the current one and the current one; in edit mode with content that is not all white space, the editor gets the content and the metadata's suggestions, or none without metadata |
| TextArtifact.EmptyStateIff | artifacts/text/client.tsx:94-119 | the empty state shows exactly when nothing is loading, the mode is edit and every character of the content is white space |
| TextArtifact.EnabledActionsStayInRange | artifacts/text/client.tsx:138-180 | with the last of `n` versions counted as current, an enabled "View changes" opens the diff of the previous and the shown version, an enabled "previous" has a version before it and an enabled "next" a version after it |
| TextArtifact.FilenameRun | artifacts/text/client.tsx:211 | the captured run is the longest prefix without `"`, `;` or line feed |
| TextArtifact.FilenameMatchFrom | artifacts/text/client.tsx:211 | a match captures a non-empty run free of `"`, `;` and line feed |
| TextArtifact.DownloadName | artifacts/text/client.tsx:210-212 | the download always has a non-empty name, "documento.docx" when there is no header or no match |
| TextArtifact.ExportDispositionShape | artifacts/text/client.tsx:210-212 | in the header the export route sends, `filename=` first occurs at position 12, followed by the opening quote and the name with its closing quote |
| TextArtifact.DownloadReadsRun | artifacts/text/client.tsx:210-212 | the name downloaded from an exported header is the exported name read up to its first `"`, `;` or line feed |
| TextArtifact.DownloadNameRoundTrip | artifacts/text/client.tsx:210-212 | a non-empty exported name without `"`, `;` or line feed is downloaded under exactly that name |
| TextArtifact.DownloadStopsAtSemicolon | artifacts/text/client.tsx:211 | an exported name whose clean first part is followed by `;` is downloaded as that first part alone |
| DataStreamHandler.Reduce | components/data-stream-handler.tsx:48-91 | with no draft the result is the initial artifact set to streaming; otherwise `data-id`, `data-title`, `data-kind` and `data-clear` change only their own field and set streaming, `data-finish` sets idle, every other part keeps the draft, and visibility and box are always kept |
| DataStreamHandler.ReplayAppend | components/data-stream-handler.tsx:29-92 | applying a batch split in two is applying the first part and then the second |
| DataStreamHandler.ChatTitlesChangeNothing | components/data-stream-handler.tsx:31-34 | a batch of chat-title parts leaves artifact and metadata unchanged and revalidates the history once per part |
| DataStreamHandler.Handler.constructor | components/data-stream-handler.tsx:15-19 | the handler starts with an empty buffer, the initial artifact and no revalidation |
| DataStreamHandler.Handler.Receive | components/data-stream-handler.tsx:16 | a received part is appended to the buffer and nothing else changes |
| DataStreamHandler.Handler.Flush | components/data-stream-handler.tsx:21-93 | the buffer is emptied, the parts are applied in order with the text handler chosen by the artifact kind seen when the batch started, and the history is revalidated once per chat-title part; an empty buffer changes nothing |
| RevisorDocumentsTool.Deltas | lib/ai/tools/create-revisor-defesa-documents.ts:92-99 | one text-delta write per chunk |
| RevisorDocumentsTool.FirstFailure | lib/ai/tools/create-revisor-defesa-documents.ts:65-115 | the run stops at the first document that does not go through, a rejected generation or, with a user, a failed save: every document before that index went through, and the index is a failing one or the end |
| RevisorDocumentsTool.FirstFailureAt | lib/ai/tools/create-revisor-defesa-documents.ts:65-115 | when the documents before `i` went through and `i` failed or is the end, the run stops exactly at `i` |
| RevisorDocumentsTool.ChunksFromConcat | lib/ai/tools/create-revisor-defesa-documents.ts:92-99 | the chunks written from any offset, put back together, give the content from that offset |
| RevisorDocumentsTool.ChunksConcat | lib/ai/tools/create-revisor-defesa-documents.ts:92-99 | the chunks put back together give the whole content |
| RevisorDocumentsTool.ChunksFromSizes | lib/ai/tools/create-revisor-defesa-documents.ts:9 | from any offset, no chunk exists exactly when the offset is at or past the end; every chunk holds 1 to 400 characters and all but the last hold exactly 400 |
| RevisorDocumentsTool.ChunkSizes | lib/ai/tools/create-revisor-defesa-documents.ts:9 | empty content gives no chunk; every chunk holds 1 to 400 characters and all but the last hold exactly 400 |
| RevisorDocumentsTool.ProjectionsAppend | lib/ai/tools/create-revisor-defesa-documents.ts:65-116 | the writes and the saves of two consecutive stretches of the trace are those of each stretch, in order |
| RevisorDocumentsTool.PersistedAppend | lib/ai/tools/create-revisor-defesa-documents.ts:107-115 | the saves of a concatenated trace are the saves of each part, in order |
| RevisorDocumentsTool.WrittenAppend | lib/ai/tools/create-revisor-defesa-documents.ts:71-105 | the writes of a concatenated trace are the writes of each part, in order |
| RevisorDocumentsTool.DeltasHaveNoSaves | lib/ai/tools/create-revisor-defesa-documents.ts:92-99 | the chunk writes save nothing |
| RevisorDocumentsTool.OnlyWritesNoSaves | lib/ai/tools/create-revisor-defesa-documents.ts:71-105 | a stretch made only of writes saves nothing |
| RevisorDocumentsTool.WritesHaveNoSaves | lib/ai/tools/create-revisor-defesa-documents.ts:71-105 | a document's writes save nothing |
| RevisorDocumentsTool.WrittenDocument | lib/ai/tools/create-revisor-defesa-documents.ts:71-115 | a document is saved, with its streamed content, exactly when the session has a non-empty user id, and its writes are the same either way |
| RevisorDocumentsTool.SavesExactlyWithUser | lib/ai/tools/create-revisor-defesa-documents.ts:65-116 | a completed run saves the three documents, in index order with their ids, titles and streamed content, exactly when the session has a user, and saves nothing otherwise |
| RevisorDocumentsTool.WritesIndependentOfUser | lib/ai/tools/create-revisor-defesa-documents.ts:71-115 | what the run writes to the stream does not depend on the session's user |
| RevisorDocumentsTool.WrittenStep | lib/ai/tools/create-revisor-defesa-documents.ts:65-116 | the n-th document adds exactly its own writes to the stream, after those of the documents before it |
| RevisorDocumentsTool.DocumentEffectsLayout | lib/ai/tools/create-revisor-defesa-documents.ts:71-115 | a document's effects open with the kind, id and title parts, and end with the finish part followed by the save when there is a user, or with the finish part when there is none |
| RevisorDocumentsTool.DocumentBlockInTrace | lib/ai/tools/create-revisor-defesa-documents.ts:65-116 | the effects of document i come right after those of the documents before it, at the start of the trace of any longer run |
| RevisorDocumentsTool.BlockOfPrefix | lib/ai/tools/create-revisor-defesa-documents.ts:71-115 | inside a trace, a document's block opens with its kind, id and title parts, and its save follows its finish part immediately |
| RevisorDocumentsTool.EffectsPrefix | lib/ai/tools/create-revisor-defesa-documents.ts:65-116 | the effects of the first m documents are a prefix of the effects of the first n, for m <= n: a later document never changes what was already written or saved |
| RevisorDocumentsTool.ThreeEffects | lib/ai/tools/create-revisor-defesa-documents.ts:65-116 | the trace of the first one, two and three documents is the concatenation of their blocks in index order |
| RevisorDocumentsTool.DocumentsTool.constructor | lib/ai/tools/create-revisor-defesa-documents.ts:21-24 | the tool starts with an empty trace |
| RevisorDocumentsTool.DocumentsTool.EmitDocument | lib/ai/tools/create-revisor-defesa-documents.ts:66-115 | one document appends its kind, id, title and clear parts, one delta per 400-character chunk, its finish part and, with a user, its save, and nothing else; it reports a failure exactly when there is a user and the save fails, and then the save is missing from the trace |
| RevisorDocumentsTool.DocumentsTool.Execute | lib/ai/tools/create-revisor-defesa-documents.ts:45-123 | the trace gains the blocks of the documents before the first rejected generation or failed save, in order, followed by the writes of a document whose save failed; the result holds the ids, the three titles and the confirmation text exactly when every document went through, and there is no result otherwise |
| DocumentDelivery.WrittenDeltas | lib/ai/tools/create-revisor-defesa-documents.ts:92-99 | the chunk writes carry the text-delta parts of the chunks, in order |
| DocumentDelivery.WrittenHead | lib/ai/tools/create-revisor-defesa-documents.ts:71-90 | the four opening writes carry the kind, id, title and clear parts, in order |
| DocumentDelivery.ReplayCons | components/data-stream-handler.tsx:29-92 | applying a batch is applying its first part and then the rest |
| DocumentDelivery.ReplayChunks | artifacts/text/client.tsx:43-59 | the chunk deltas, applied in a text batch to a streaming artifact that holds the content up to a multiple of 400, rebuild the whole content and change nothing else; the reveal window is never hit, so visibility stays as it was |
| DocumentDelivery.DeltaStep | artifacts/text/client.tsx:43-59 | a delta onto a streaming artifact outside the reveal window only appends to the content |
| DocumentDelivery.HeadReplay | components/data-stream-handler.tsx:48-80 | the four opening parts set the kind to text, the id and title, empty the content and set streaming, in a batch of any kind |
| DocumentDelivery.ReplayPair | components/data-stream-handler.tsx:29-92 | applying two parts is applying one after the other |
| DocumentDelivery.OpeningStep | components/data-stream-handler.tsx:54-80 | a kind, id, title or clear part changes only the artifact's own field and the status, in a batch of any kind |
| DocumentDelivery.WrittenDocumentWrites | lib/ai/tools/create-revisor-defesa-documents.ts:71-105 | a document's writes carry the four opening parts, the chunk deltas and the finish part, in order |
| DocumentDelivery.ReplayDocument | components/data-stream-handler.tsx:29-92 | applying a document's parts is the opening parts, then the deltas, then the finish part |
| DocumentDelivery.DeliveredDocument | components/data-stream-handler.tsx:21-93 | one document's parts, applied in a batch that starts on a text artifact, leave its id, title and whole content with the idle status, and keep visibility, box and suggestions |
| DocumentDelivery.StaleKindDropsContent | components/data-stream-handler.tsx:35-46 | in a batch that starts while the artifact shows another kind, the document's id and kind arrive but none of its content does |
| DocumentDelivery.IgnoredDeltas | components/data-stream-handler.tsx:35-46 | in a batch that does not start on a text artifact, text deltas change nothing |
| DocumentDelivery.DeliveredRun | lib/ai/tools/create-revisor-defesa-documents.ts:65-116 | everything a run of the tool wrote, applied in one text batch, leaves the last document on the panel with its whole content and the idle status, whether or not the documents were saved |
| DocumentToDocx.RenderAppend | lib/document-to-docx.ts:69 | the source text of consecutive segments is the source text of each, in order |
| DocumentToDocx.MarkerFrom | lib/document-to-docx.ts:76 | the search from a position finds the first `**` at or after it, or -1 when there is none |
| DocumentToDocx.Marker | lib/document-to-docx.ts:76 | `indexOf("**")` is the position of the first marker, or -1 when the line has none |
| DocumentToDocx.MarkerFound | lib/document-to-docx.ts:49 | a line includes `**` exactly when the search finds a marker |
| DocumentToDocx.StepNoMarker | lib/document-to-docx.ts:76-82 | a round that finds no marker yields the rest as one plain segment |
| DocumentToDocx.StepUnclosed | lib/document-to-docx.ts:83-90 | a round that finds an opening marker and no closing one yields the text before it, then the marker and the rest as plain text |
| DocumentToDocx.StepClosed | lib/document-to-docx.ts:83-93 | a round that finds a pair of markers yields the text before it, the bold text between them, then the segments of what follows |
| DocumentToDocx.ParseBoldSegments | lib/document-to-docx.ts:71-97 | the loop returns exactly the segments the recursive definition gives for the line |
| DocumentToDocx.BoldSegmentsRoundTrip | lib/document-to-docx.ts:71-97 | putting the markers back around the bold segments and joining everything gives the line back: no text is lost or reordered |
| DocumentToDocx.AfterOpeningRoundTrip | lib/document-to-docx.ts:86-93 | after an opening marker, the segments give back the marker and the rest of the line |
| DocumentToDocx.WellFormedConcat | lib/document-to-docx.ts:71-97 | marker-free well-formed segments followed by well-formed segments are well formed |
| DocumentToDocx.BoldSegmentsWellFormed | lib/document-to-docx.ts:71-97 | no plain segment is empty, no bold segment holds `**`, and only the last segment can hold one (the kept unmatched marker) |
| DocumentToDocx.NoMarkerSingleSegment | lib/document-to-docx.ts:75-82 | a non-empty line without `**` is a single plain segment |
| DocumentToDocx.SplitLines | lib/document-to-docx.ts:21 | splitting on `\r?\n` gives at least one line, and no line holds a line feed |
| DocumentToDocx.SplitLinesRoundTrip | lib/document-to-docx.ts:21 | text without carriage returns splits into lines that joined with line feeds give the text back |
| DocumentToDocx.SplitLinesStep | lib/document-to-docx.ts:21 | the first line of text without carriage returns is the text up to its first line feed, and the rest is split the same way |
| DocumentToDocx.HeadingCapture | lib/document-to-docx.ts:31-32 | a heading capture exists only for a line that starts with `##`; it is non-empty, ends the line, starts with no white space and holds no line terminator |
| DocumentToDocx.ParagraphOf | lib/document-to-docx.ts:24-27 | a line becomes the blank paragraph exactly when it is empty after trimming its end |
| DocumentToDocx.ParagraphOfBody | lib/document-to-docx.ts:44-63 | a line that is neither blank nor a heading becomes a plain paragraph with the trimmed line exactly when it has no `**`; otherwise its runs give the trimmed line back and are well formed |
| DocumentToDocx.ParagraphsOf | lib/document-to-docx.ts:23-64 | one paragraph per line |
| DocumentToDocx.ContentToParagraphs | lib/document-to-docx.ts:19-67 | the loop builds one paragraph per line of the content, in order, so never none |
| DocumentToDocx.ParagraphsOfAppend | lib/document-to-docx.ts:23-64 | the paragraphs of consecutive lines are those of each part, in order |
| DocumentToDocx.DocumentBody | lib/document-to-docx.ts:107-112 | the document body is the paragraphs of the content's lines: the one-blank-paragraph fallback is never taken |
| DocumentToDocx.ReplaceForbidden | lib/document-to-docx.ts:125 | each forbidden character (angle brackets, colon, double quote, slash, backslash, vertical bar, question mark, asterisk) becomes `_` and every other character is kept, position by position |
| DocumentToDocx.CollapseWhitespace | lib/document-to-docx.ts:126 | the result holds no white space and is no longer than the input |
| DocumentToDocx.CollapseAppend | lib/document-to-docx.ts:126 | collapsing text cut at a point not preceded by white space collapses each side on its own |
| DocumentToDocx.CollapseRun | lib/document-to-docx.ts:126 | a non-empty white-space run before text that does not start with white space becomes a single `_` |
| DocumentToDocx.CollapseStep | lib/document-to-docx.ts:126 | each maximal white-space run between two stretches becomes exactly one `_`, and the stretches on either side are collapsed unchanged in order |
| DocumentToDocx.SanitizedStemIsPrefix | lib/document-to-docx.ts:124-128 | the stem is the first 115 characters, or all of them when fewer, of the trimmed text after the replacements |
| DocumentToDocx.SanitizeDocxFilename | lib/document-to-docx.ts:123-130 | the file name is the stem plus `.docx`, or `documento.docx` when the stem is empty, so it ends with `.docx` and has between 6 and 120 characters |
| DocumentToDocx.CollapseKeeps | lib/document-to-docx.ts:126 | collapsing white space introduces no character other than `_` |
| DocumentToDocx.CleanCollapsed | lib/document-to-docx.ts:124-127 | after replacement and collapsing the stem holds no forbidden character and no white space, so trimming does nothing |
| DocumentToDocx.SanitizedNameIsClean | lib/document-to-docx.ts:123-130 | every sanitized file name, extension included, holds no forbidden character and no white space |
| DocumentToDocx.SanitizeKeepsCleanStem | lib/document-to-docx.ts:123-130 | a clean non-empty title of at most 115 characters is named by itself plus `.docx` |
| DocumentToDocx.CollapseClean | lib/document-to-docx.ts:126 | text without white space is unchanged by the collapsing |
| DocumentToDocx.SafeDocxFilename | lib/document-to-docx.ts:123-130 | the corrected name also ends with `.docx` and has between 6 and 120 characters |
| DocumentToDocx.ReplaceSemicolons | lib/document-to-docx.ts:125 | the corrected replacement maps `;` to `_` and keeps every other character, so the result holds no `;` |
| DocumentToDocx.SafeNameHasNoDelimiters | lib/document-to-docx.ts:123-130 | the corrected name is non-empty and holds no `"`, `;` or line feed |
| DocxDownload.SemicolonTitleTruncated | lib/document-to-docx.ts:123-130 | a clean title with a `;` in it, such as "a;b", is exported under its whole name plus `.docx` but downloaded as the part before the `;` alone, losing its end and its extension |
| DocxDownload.SafeNameRoundTrip | artifacts/text/client.tsx:210-212 | with semicolons replaced too, every title is downloaded under exactly the name it was exported under |
| DocxDownload.RoundTripWithoutDelimiters | artifacts/text/client.tsx:210-212 | any non-empty exported name without `"`, `;` or line feed is downloaded under exactly that name |
| DocxDownload.SafeNameAgrees | lib/document-to-docx.ts:123-130 | for titles without `;` the corrected sanitizer names the file exactly as the written one does |
| DocumentCache.CacheKey | lib/cache/document-cache.ts:19-21 | the key is `doc:`, the user id, `:` and the document id, each at its own position |
| DocumentCache.DocxCacheKey | lib/cache/document-cache.ts:23-25 | the key is `docx:`, the user id, `:` and the document id, each at its own position |
| DocumentCache.ExpiryFor | lib/cache/document-cache.ts:51-61 | an entry written at `now` expires `ttlMs` later, 30 000 ms later when no TTL is given |
| DocumentCache.Lookup | lib/cache/document-cache.ts:38-49 | `get` returns a value exactly when the key is present and `now` is before its expiry, and the value is the stored one |
| DocumentCache.AfterLookup | lib/cache/document-cache.ts:27-86 | the `get` of either cache, given how its entries' expiry is read, removes the key when it finds it expired, and changes nothing otherwise |
| DocumentCache.DocxLookup | lib/cache/document-cache.ts:74-88 | the DOCX `get` returns a hit exactly when the key is present and unexpired, with the stored buffer and file name |
| DocumentCache.KeyPrefixesDiffer | lib/cache/document-cache.ts:16-25 | a document-cache key is never a DOCX-cache key |
| DocumentCache.CacheKeyInjective | lib/cache/document-cache.ts:19-21 | for user ids without `:`, different (user, document) pairs get different keys, so one user is never served another's entry |
| DocumentCache.CacheKeyCollision | lib/cache/document-cache.ts:19-21 | once ids may hold `:`, two different pairs can share a key |
| DocumentCache.GetAfterSet | lib/cache/document-cache.ts:38-62 | after `set` at `now`, `get` at `t` returns the stored value exactly while `t` is before the expiry, and from the expiry on removes the entry |
| DocumentCache.DocxGetAfterSet | lib/cache/document-cache.ts:74-102 | after the DOCX `set`, `get` returns exactly the stored buffer and file name while `t` is before the expiry, and from the expiry on removes the entry |
| DocumentCache.OtherKeysUnaffected | lib/cache/document-cache.ts:38-66 | writing, deleting or expiring one key leaves what every other key returns unchanged |
| DocumentCache.LookupTwice | lib/cache/document-cache.ts:38-49 | asking twice at the same instant gives the same answer and leaves the same store |
| DocumentCache.Caches.constructor | lib/cache/document-cache.ts:16-17 | both stores start empty |
| DocumentCache.Caches.Get | lib/cache/document-cache.ts:38-49 | returns the lookup of the user's document key, applies the lookup's removal of an expired entry, and leaves the DOCX store alone |
| DocumentCache.Caches.Set | lib/cache/document-cache.ts:51-62 | stores the value under the user's document key with its expiry, and leaves the DOCX store alone |
| DocumentCache.Caches.Delete | lib/cache/document-cache.ts:64-66 | removes the user's document key only, and leaves the DOCX store alone |
| DocumentCache.Caches.DocxGet | lib/cache/document-cache.ts:74-88 | returns the DOCX lookup, applies its removal of an expired entry, and leaves the document store alone |
| DocumentCache.Caches.DocxSet | lib/cache/document-cache.ts:90-102 | stores the buffer and file name under the DOCX key with its expiry, and leaves the document store alone |
| DocumentCache.Caches.DocxDelete | lib/cache/document-cache.ts:104-106 | removes the DOCX key only, and leaves the document store alone |
| Modelos.SpacesToUnderscores | lib/ai/modelos/index.ts:30 | replacing spaces keeps the key's length |
| Modelos.FromTitle | lib/ai/modelos/index.ts:27-43 | on the upper-cased title: the advocate script is chosen exactly when `ROTEIRO_ADVOGADO` occurs; the preposto script exactly when that does not and `ROTEIRO_PREPOSTO` does; the executive opinion exactly when neither does and `PARECER_EXECUTIVO`, `AVALIACAO_DEFESA` or `AVALIACAO` does; otherwise none |
| Modelos.EffectiveKeys | lib/ai/modelos/index.ts:4-14 | each key list matches exactly when one of its underscored keys occurs, since the spaced keys become their underscored twins |
| Modelos.AdvogadoKeys | lib/ai/modelos/index.ts:5 | the advocate keys match exactly when `ROTEIRO_ADVOGADO` occurs |
| Modelos.PrepostoKeys | lib/ai/modelos/index.ts:7 | the preposto keys match exactly when `ROTEIRO_PREPOSTO` occurs |
| Modelos.ParecerKeysEffective | lib/ai/modelos/index.ts:9-14 | the opinion keys match exactly when `PARECER_EXECUTIVO`, `AVALIACAO_DEFESA` or `AVALIACAO` occurs |
| Modelos.AvaliacaoDefesaRedundant | lib/ai/modelos/index.ts:12-13 | a title naming `AVALIACAO_DEFESA` already names `AVALIACAO`, so the longer key never decides anything |
| Modelos.AdvogadoFirst | lib/ai/modelos/index.ts:29-33 | a title naming the advocate script picks it, whatever other keys it also names |
| Modelos.ModeloFilesDistinct | lib/ai/modelos/index.ts:45-49 | different template types are read from different files |
| Modelos.LoadResult | lib/ai/modelos/index.ts:58-75 | a memoised type returns its memo entry; otherwise the load succeeds exactly when the type's file can be read, with the file's text |
| Modelos.CacheAfter | lib/ai/modelos/index.ts:61-74 | after a load the memo holds the load's outcome for that type, a failure as null, and every other type's entry is unchanged |
| Modelos.LoadMemoised | lib/ai/modelos/index.ts:51-75 | after one load of a type, every later load returns the same value and leaves the memo unchanged, whatever the directory then holds |
| Modelos.TemplateLoader.constructor | lib/ai/modelos/index.ts:52 | the memo starts empty and no file has been read |
| Modelos.TemplateLoader.Load | lib/ai/modelos/index.ts:58-75 | returns the load's result, updates the memo as the load does, and reads the type's file exactly when the type was not memoised |
| PromptValidation.EstimateTokens | lib/prompts/agente-trabalhista/validate.ts:26-28 | the estimate is the length divided by 4, rounded up |
| PromptValidation.DocTemplatesSection | lib/prompts/agente-trabalhista/validate.ts:31-37 | without "## DOC 1:" the section is empty; otherwise it starts with "## DOC 1:" and runs to the end of the prompt |
| PromptValidation.BlankPlaceholders | lib/prompts/agente-trabalhista/validate.ts:45 | blanking placeholders never lengthens the text |
| PromptValidation.SeparatorsFrom | lib/prompts/agente-trabalhista/validate.ts:51-56 | every counted separator takes three characters of its own, so separators never overlap |
| PromptValidation.MissingTitles | lib/prompts/agente-trabalhista/validate.ts:93-97 | the title loop pushes only E6 errors, at most one per title |
| PromptValidation.MissingTitlesIff | lib/prompts/agente-trabalhista/validate.ts:93-97 | a title gets an E6 error exactly when it is one of the titles and the upper-cased prompt lacks it |
| PromptValidation.MissingTitlesStep | lib/prompts/agente-trabalhista/validate.ts:93-97 | checking one more title appends that title's error, if it is missing |
| PromptValidation.CountAppend | lib/prompts/agente-trabalhista/validate.ts:59 | the number of pushes of an error into two consecutive stretches is the sum over each |
| PromptValidation.CountIn | lib/prompts/agente-trabalhista/validate.ts:59 | an error is in the list exactly when it was pushed at least once |
| PromptValidation.ErrorListCount | lib/prompts/agente-trabalhista/validate.ts:63-98 | each error occurs once per failed check E1 to E5 that names it, plus its count among the E6 errors |
| PromptValidation.CountPushIf | lib/prompts/agente-trabalhista/validate.ts:63-88 | a conditional push adds one occurrence of its error exactly when its condition holds |
| PromptValidation.CountOnlyTitles | lib/prompts/agente-trabalhista/validate.ts:90-98 | the title loop never pushes E1 to E5 |
| PromptValidation.ValidationOf | lib/prompts/agente-trabalhista/validate.ts:58-135 | the prompt is valid exactly when there is no error; the empty-module list is always empty; the token estimate is the length over 4 rounded up |
| PromptValidation.PushMissingTitles | lib/prompts/agente-trabalhista/validate.ts:93-97 | the loop appends the E6 errors of the missing titles to the errors pushed so far, in title order |
| PromptValidation.ValidateSystemPrompt | lib/prompts/agente-trabalhista/validate.ts:58-135 | the method returns exactly the validation result of the prompt |
| PromptValidation.PushErrors | lib/prompts/agente-trabalhista/validate.ts:63-98 | the error checks push exactly the errors E1 to E6 of the prompt, in order |
| PromptValidation.PushWarnings | lib/prompts/agente-trabalhista/validate.ts:100-119 | the warning checks push exactly A1 to A3 of the prompt, in order |
| PromptValidation.FixedErrorsOnce | lib/prompts/agente-trabalhista/validate.ts:63-88 | E1 is reported once exactly for a prompt shorter than 500 characters, the empty one included; E2 at most once; E3, E4 and E5 once each exactly when a non-empty prompt lacks "GATE-1", "Gate 0.5", or both "art. 342" and "art.342" |
| PromptValidation.E6Iff | lib/prompts/agente-trabalhista/validate.ts:90-98 | E6 is reported for a title exactly when the prompt is non-empty, the title is one of the three and the upper-cased prompt lacks it |
| PromptValidation.SiglasIff | lib/prompts/agente-trabalhista/validate.ts:40-48 | the acronym check holds exactly when "## DOC 1:" occurs and the blanked text from there on holds RTE, RDO, DAJ or DTC as a whole word |
| PromptValidation.E2Iff | lib/prompts/agente-trabalhista/validate.ts:68-73 | E2 is reported exactly when the blanked text from the first "## DOC 1:" on holds one of the four acronyms as a whole word; a prompt without "## DOC 1:" never gets E2 |
| PromptValidation.WarningsIff | lib/prompts/agente-trabalhista/validate.ts:100-119 | A1 is raised exactly for prompts longer than 16 000 characters and carries the estimate; A3 is raised exactly when a non-empty prompt has fewer than three separators and carries their count |
| PromptValidation.SeparatorsFromZeroIff | lib/prompts/agente-trabalhista/validate.ts:51-56 | no separator is counted from a position exactly when "---" does not occur from there on |
| PromptValidation.CountSeparatorsZeroIff | lib/prompts/agente-trabalhista/validate.ts:51-56 | the separator count is zero exactly when the prompt has no "---" |
| PromptValidation.ModulesFromPositiveIff | lib/prompts/agente-trabalhista/validate.ts:122-123 | the module count is positive exactly when some line starts with "## " |
| PromptValidation.BlankWithoutBrackets | lib/prompts/agente-trabalhista/validate.ts:45 | text without `[` is unchanged by the blanking |
| PromptValidation.BlankWithoutClose | lib/prompts/agente-trabalhista/validate.ts:45 | text without `]` is unchanged by the blanking |
| PromptValidation.BlankEmptiesPlaceholders | lib/prompts/agente-trabalhista/validate.ts:45-47 | after blanking, every `[` is an empty pair or has no `]` after it, so no text inside a placeholder is read as an acronym |
| PromptBuilder.JoinEndsWithLast | lib/prompts/agente-trabalhista/index.ts:52-54 | a joined list ends with its last element |
| PromptBuilder.EndsWithAppend | lib/prompts/agente-trabalhista/index.ts:54 | a text ending with x still ends with x after something is put in front of it |
| PromptBuilder.LineShapes | lib/prompts/agente-trabalhista/index.ts:37-49 | the header, office and thesis-bank lines start differently, and the two thesis-bank lines end differently |
| PromptBuilder.PromptLayout | lib/prompts/agente-trabalhista/index.ts:23-54 | the prompt is the base instructions, then "\n---\n", then the dynamic-context header with the reference date, which is the supplied date verbatim when one is given |
| PromptBuilder.BancoTesesLine | lib/prompts/agente-trabalhista/index.ts:34-49 | the prompt ends with the ATIVO thesis-bank line exactly when `bancoTesesAtivo === true`, and with the INATIVO line otherwise |
| PromptBuilder.OfficeLineIff | lib/prompts/agente-trabalhista/index.ts:33-40 | the dynamic block has an office line exactly when the trimmed office name is non-empty, and that line carries the trimmed name |
| PromptBuilder.MarkersCarryOver | lib/prompts/agente-trabalhista/index.ts:51-54 | text found in the base instructions, upper-cased or not, is still found once more text is appended |
| PromptBuilder.BaseChecksCarryOver | lib/prompts/agente-trabalhista/index.ts:23-54 | when the base instructions pass every validator check but the acronym check, so does the built prompt, whatever the context |
| PromptBuilder.ChecksCarryOver | lib/prompts/agente-trabalhista/validate.ts:63-98 | appending text to a prompt that passes every check but E2 keeps it passing them |
| PromptBuilder.FixedChecksCarryOver | lib/prompts/agente-trabalhista/validate.ts:63-88 | appending text to such a prompt keeps E1, E3, E4 and E5 away, and the prompt already has at least 500 characters |
| Utils.IsUUIDPositions | lib/utils.ts:127-132 | the UUID check accepts exactly the 36-character strings with dashes at 8, 13, 18 and 23 and hex digits (either case) everywhere else |
| Utils.HexChar | lib/utils.ts:138 | a digit below 16 prints as one lower-case hex digit |
| Utils.Fill | lib/utils.ts:135-139 | filling keeps the template's length and every non-placeholder character; each `x` becomes a hex digit and each `y` one of 8, 9, a, b |
| Utils.TemplateDraws | lib/utils.ts:135 | the template takes 31 random draws, one per `x` or `y` |
| Utils.TemplateShape | lib/utils.ts:135 | the template has the UUID shape: dashes at 8, 13, 18, 23, the version digit 4 at 14, the variant placeholder at 19 and placeholders elsewhere |
| Utils.GenerateUUID | lib/utils.ts:134-140 | every generated id passes the UUID check, carries version 4 at position 14 and a variant digit 8, 9, a or b at 19 |
| Utils.FilledTemplateShape | lib/utils.ts:134-140 | filling any template of the UUID shape gives a string the UUID check accepts, with version and variant in place |
| Utils.Pow2 | lib/utils.ts:86 | a power of two is at least 1 |
| Utils.StopAttempt | lib/utils.ts:72-89 | the loop ends on an allowed attempt after only retried 404s, and that attempt is the last allowed or not a retried 404 |
| Utils.StopAttemptAt | lib/utils.ts:72-89 | the attempt that follows only retried 404s and is the last allowed or not a retried 404 is where the loop ends |
| Utils.Delays | lib/utils.ts:85-88 | the k-th wait is 300 times 2 to the k milliseconds |
| Utils.DocumentFetcher | lib/utils.ts:65-96 | the loop's outcome, number of fetches and waits are exactly those of the fetch run over the successive responses |
| Utils.FetchCount | lib/utils.ts:72-76 | a document GET fetches at most four times; any other URL fetches exactly once |
| Utils.RetryPolicy | lib/utils.ts:72-95 | a fetch is repeated only after a 404 on a document GET; the run returns the body of the first ok response, throws on the first other failure, and throws on a 404 only at the fourth attempt of a document GET |
| Utils.DelaySchedule | lib/utils.ts:85-88 | every fetch but the last is followed by a wait, the k-th of 300 times 2 to the k milliseconds |
| Utils.SanitizeTextRemovesFirst | lib/utils.ts:178-180 | text without the function-call marker is unchanged; otherwise exactly the first marker is removed, and putting it back gives the text |
| Utils.TextFromMessageAppend | lib/utils.ts:193-198 | appending a text part appends its text to the message text; any other part adds nothing |
| Utils.UserMessages | lib/utils.ts:146 | filtering never lengthens the list |
| Utils.MostRecentUserMessageIff | lib/utils.ts:145-148 | there is no result exactly when no message is from the user; otherwise the result is a user message with no user message after it |
| Utils.LastUserIndex | lib/utils.ts:145-148 | the last user index is -1 or a user message's index, and no user message comes after it |
| Utils.MostRecentIsLastUserIndex | lib/utils.ts:145-148 | the most recent user message is the message at the last user index |
| Utils.GetTrailingMessageId | lib/utils.ts:164-176 | there is no trailing id exactly when there are no messages |
| Utils.TrailingMessageIdAppend | lib/utils.ts:169-175 | the trailing id is the id of the message appended last |
| Utils.TimestampAtLengthFails | lib/utils.ts:157-161 | as written, the index equal to the length slips through the guard and reads past the array |
| Utils.TimestampByIndex | lib/utils.ts:150-162 | corrected: always a timestamp, the document's own for an index inside the list and `now` when the list is absent or the index at or past its end |
| Utils.TimestampCorrectionAgrees | lib/utils.ts:150-162 | wherever the original does not fail, the corrected function returns the same timestamp |
| PhaseBanner.PartTexts | components/revisor-phase-banner.tsx:14-21 | one text per part |
| PhaseBanner.PartTextsConcat | components/revisor-phase-banner.tsx:10-22 | joining every part's text, with "" for non-text parts, gives the joined text parts |
| PhaseBanner.AssistantTextIsMessageText | components/revisor-phase-banner.tsx:10-22 | an assistant message's text is the message text of the shared helper, and any other message's text is empty |
| PhaseBanner.FirstText | components/revisor-phase-banner.tsx:28-30 | there is no first text exactly when no part is a text part; otherwise it is the text of a text part with no text part before it |
| PhaseBanner.LastIndexWhere | components/revisor-phase-banner.tsx:34-47 | the search returns the last index whose element passes the test, or -1 exactly when none passes |
| PhaseBanner.LastIndexWhereUnique | components/revisor-phase-banner.tsx:34-47 | an index that passes the test with none after it is the one the search returns |
| PhaseBanner.FindLastAssistantIndexWithGate05 | components/revisor-phase-banner.tsx:34-47 | the backward loop returns the index of the last assistant message whose joined text holds both Gate 0.5 delimiters, or -1 |
| PhaseBanner.NoSummaryNoBanner | components/revisor-phase-banner.tsx:69-72 | without a Gate 0.5 summary there is no banner, whatever the status |
| PhaseBanner.FaseAIff | components/revisor-phase-banner.tsx:112-170 | a FASE A banner shows exactly when some summary has neither a later summary nor a reply after it; the buttons only in a chat that is not read-only, the read-only notice only in one that is |
| PhaseBanner.UnansweredSummaryIff | components/revisor-phase-banner.tsx:69-80 | the last summary has no reply after it exactly when some summary has neither a summary nor a reply after it |
| PhaseBanner.LastUnansweredIff | components/revisor-phase-banner.tsx:69-80 | the same, for any marker test and reply test |
| PhaseBanner.RepliedBanners | components/revisor-phase-banner.tsx:82-114 | once the user has replied to the last summary, the error notice shows exactly on error, FASE B exactly otherwise while submitting or streaming or when the last message is the assistant's, and never a FASE A banner |
| PhaseBanner.LastIndexWhereAppend | components/revisor-phase-banner.tsx:34-47 | appending a message that does not pass the test leaves the search's answer unchanged |
| PhaseBanner.ConfirmIsReply | components/revisor-phase-banner.tsx:116-121 | the CONFIRMAR message is itself a reply to the summary |
| PhaseBanner.ReplyMovesToFaseB | components/revisor-phase-banner.tsx:74-114 | sending a reply after a summary keeps the same summary and moves the banner on: FASE B while submitted or streaming, the error notice on error, never FASE A again |
| PhaseBanner.ConfirmMovesToFaseB | components/revisor-phase-banner.tsx:116-121 | pressing CONFIRMAR shows FASE B while the request is submitted or streaming |
| PhaseBanner.CorrigirPrefillIsReply | components/revisor-phase-banner.tsx:123-128 | whatever the user types after the CORRIGIR prefill, the trimmed text starts with "CORRIGIR:", so sending it counts as a reply |
| DocumentTool.ActionTextInjective | components/document.tsx:10-23 | the six action wordings are pairwise different, so the text determines both the tool and the tense |
| DocumentTool.CallLabel | components/document.tsx:98-115 | a create call with a non-empty title is labelled by the quoted title, an update call by the quoted description, a suggestions call by "para o documento", and every other combination by the empty label |
| DocumentTool.ClickResult | components/document.tsx:41-67 | in a read-only chat a result click leaves the artifact unchanged |
| DocumentTool.ClickCall | components/document.tsx:136-158 | in a read-only chat a call click leaves the artifact unchanged |
| DocumentTool.ClickResultOpens | components/document.tsx:58-66 | outside read-only chats a result click points the panel at the result's id, kind and title, idle and visible at the clicked box, keeps the current content, and a second click changes nothing more |
| DocumentTool.ClickCallOpens | components/document.tsx:153-157 | outside read-only chats a call click makes the panel visible at the clicked box, keeps every other field, and is idempotent |
| DocumentsResult.Decimal | components/revisor-defesa-documents-result.tsx:59 | the printed index is a non-empty string of decimal digits |
| DocumentsResult.DecimalRoundTrip | components/revisor-defesa-documents-result.tsx:59 | reading the printed digits back gives the number, so distinct indices print differently |
| DocumentsResult.Entries | components/revisor-defesa-documents-result.tsx:52-64 | there is one entry per id |
| DocumentsResult.ViewCases | components/revisor-defesa-documents-result.tsx:23-64 | an error key always shows the error; otherwise the pending line shows exactly when there are no ids; otherwise each id in order becomes a text entry titled by the title at its index or "Documento <index + 1>" |
| DocumentsResult.FallbackTitlesDiffer | components/revisor-defesa-documents-result.tsx:59 | fallback titles at different indices differ |
| DocumentsResult.ToolResultShown | components/revisor-defesa-documents-result.tsx:35-64 | a successful tool result with as many titles as ids is shown as one entry per document carrying the tool's own id and title |
| DocumentsResult.ClickEntryOpensDocument | components/revisor-defesa-documents-result.tsx:54-62 | clicking the i-th entry outside a read-only chat opens the i-th id as a visible, idle text document |
| MessagesView.ConfirmInlineMatchesBanner | components/messages.tsx:59-86 | at most one message carries the inline CONFIRMAR / CORRIGIR buttons, it holds a Gate 0.5 summary, and some message carries them exactly when the phase banner offers its own buttons |
| MessagesView.LoadingOnlyLast | components/messages.tsx:87-89 | only the last message can be loading, and only while the answer streams |
| MessagesView.FindVote | components/messages.tsx:110-114 | no vote is found exactly when no vote names the message; a found vote names it and is the first that does |
| MessagesView.SomePartRespondedIff | components/messages.tsx:119-125 | a message's parts include an answered approval exactly when some part's state is "approval-responded" |
| MessagesView.SomeMessageRespondedIff | components/messages.tsx:118-126 | some message has an answered approval exactly when some part of some message does |
| MessagesView.ShowThinkingIff | components/messages.tsx:118-126 | the thinking placeholder shows exactly while the request is submitted and no part of any message is an answered approval |
| MessageActions.HandleCopy | components/message-actions.tsx:31-45 | copying is refused exactly when the joined, trimmed text is empty; otherwise the text copied is that non-empty text |
| MessageActions.JoinVisibleIff | components/message-actions.tsx:31-35 | the line-feed-joined text has a visible character exactly when one of the text parts has |
| MessageActions.CopyRefusedIff | components/message-actions.tsx:31-41 | copying is refused exactly when no text part of the message has a character other than white space |
| MessageActions.ActionsFor | components/message-actions.tsx:27-72 | a loading message shows no actions and every other message shows some |
| MessageActions.VoteButtons | components/message-actions.tsx:76-127 | at most one vote button is disabled, neither before a vote, and exactly one after |
| MessageActions.VotesWithout | components/message-actions.tsx:99-101 | the filtered list holds no vote for the message |
| MessageActions.VotesWithoutKeeps | components/message-actions.tsx:99-101 | the filter keeps every vote for another message and adds none |
| MessageActions.VotesWithoutAppend | components/message-actions.tsx:99-101 | filtering distributes over concatenation, so order is kept |
| MessageActions.UpdatedVotesShape | components/message-actions.tsx:92-113 | after a vote the cache holds exactly one vote for the message, the new one, at the end, after the other votes in their order |
| MessageActions.VoteThenShown | components/message-actions.tsx:78-160 | the message list then shows the new vote for the message, which disables the button just pressed and enables the other |
| MessageActions.UpdatedVotesIdempotent | components/message-actions.tsx:141-162 | voting the same way twice leaves the cache as one vote did |
| MessageActions.VotesWithoutClean | components/message-actions.tsx:99-101 | a list with no vote for the message passes the filter unchanged |
| MessageActions.SamePropsIff | components/message-actions.tsx:179-187 | the memo comparator says "same" exactly when the vote and the loading flag are both equal |
| MultimodalInput.DocsWithoutText | components/multimodal-input.tsx:160-168 | the blocking list is empty exactly when no attachment is a PDF, DOC or DOCX without extracted text |
| MultimodalInput.AttachmentPart | components/multimodal-input.tsx:191-209 | an attachment with text gives a document part with that text and its type label; a textless image gives a file part; anything else gives nothing |
| MultimodalInput.AttachmentPartsAppend | components/multimodal-input.tsx:190-210 | the parts of consecutive attachments are the parts of each stretch, in order |
| MultimodalInput.BuildAttachmentParts | components/multimodal-input.tsx:190-210 | the loop collects exactly the parts of the attachments, in order |
| MultimodalInput.MessagePartsShape | components/multimodal-input.tsx:211-220 | the message keeps the attachments' order and ends with exactly one text part: the trimmed input, or "(sem texto adicional)" when it is blank |
| MultimodalInput.GatedDocumentsBecomeParts | components/multimodal-input.tsx:166-210 | once the submit gate passes, every PDF, DOC or DOCX attachment goes out as a document part with its extracted text |
| MultimodalInput.AttachmentPartKept | components/multimodal-input.tsx:190-210 | whatever part an attachment gives sits in the message between its neighbours' parts |
| MultimodalInput.BodySizeLimitValue | components/multimodal-input.tsx:243 | the direct-upload threshold is 4.5 MiB |
| MultimodalInput.RouteFor | components/multimodal-input.tsx:288 | files over 4.5 MiB go straight to blob storage and then to processing; the rest are posted as multipart |
| MultimodalInput.ProcessRequestFor | components/multimodal-input.tsx:291-302 | the process request names the file and always carries a content type, the file's own when it has one |
| MultimodalInput.LabelOf | components/multimodal-input.tsx:273-276 | the type label is kept only when it is "pi" or "contestacao" |
| MultimodalInput.BuildAttachmentFromResponse | components/multimodal-input.tsx:246-285 | the attachment takes the answer's name and content type when present and the file's otherwise, keeps the url and text, flags a failed extraction only when the answer says true, and keeps only a known type label |
| MultimodalInput.Accepted | components/multimodal-input.tsx:369-396 | no more attachments are added than files were given |
| MultimodalInput.AcceptedFromAnswers | components/multimodal-input.tsx:287-396 | failed uploads add nothing, and every file is added exactly when every upload answered with a url |
| MultimodalInput.WithDocumentType | components/multimodal-input.tsx:583-591 | only the attachments with that url get the new type label; the rest are unchanged |
| MultimodalInput.WithPastedText | components/multimodal-input.tsx:594-609 | only the attachments with that url get the pasted text and a cleared failure flag; the rest are unchanged |
| MultimodalInput.WithoutUrl | components/multimodal-input.tsx:611-614 | removal drops every attachment with that url, keeps every other, and adds none |
| MultimodalInput.WithoutUrlAppend | components/multimodal-input.tsx:611-614 | removal distributes over concatenation, so order is kept |
| MultimodalInput.WithoutAbsentUrl | components/multimodal-input.tsx:611-614 | removing a url no attachment has changes nothing |
| MultimodalInput.PastedTextUnblocks | components/multimodal-input.tsx:594-609 | pasting text into a blocked document unblocks it, and it goes out as a document part with that text |
| MultimodalInput.PastedTextKeepsGate | components/multimodal-input.tsx:594-609 | pasting never blocks an attachment that passed the gate |
| MultimodalInput.Composer.constructor | components/multimodal-input.tsx:157 | a new composer has the given input and no attachments, queue or sent messages |
| MultimodalInput.Composer.SubmitForm | components/multimodal-input.tsx:159-225 | a blocked submit changes nothing; otherwise exactly one message with the attachment parts and the text part is sent, and attachments and input are cleared |
| MultimodalInput.Composer.OnSubmit | components/multimodal-input.tsx:529-539 | with nothing to send, while a request runs, or while a document attachment has no text, nothing changes; otherwise exactly one message with the attachment parts and the text part is sent and attachments and input are cleared |
| MultimodalInput.Composer.ProcessFiles | components/multimodal-input.tsx:369-400 | the accepted uploads are appended to the attachments in file order and the upload queue ends empty; input and sent messages are untouched |
| MultimodalInput.Composer.Remove | components/multimodal-input.tsx:611-614 | the attachments lose exactly those with that url; nothing else changes |
| MultimodalInput.Composer.RemoveAll | components/multimodal-input.tsx:437-442 | the attachments are cleared; nothing else changes |
| Middleware.ConfigPageNeverRewritten | middleware.ts:9-13 | the configuration page itself is never rewritten to the configuration page, whatever the environment and token |
| Middleware.MissingConfigOnVercel | middleware.ts:9-13 | on Vercel, a missing database URL or auth secret rewrites every other page to the configuration page |
| Middleware.MissingSecretOffVercel | middleware.ts:25-29 | off Vercel, a missing auth secret lets every other request through, whatever the path or token |
| Middleware.ConfiguredRouting | middleware.ts:35-70 | with the configuration complete: /ping answers pong, /api/auth passes, no token redirects to guest sign-in with the URL, a token redirects home exactly for a registered user on /login or /register and otherwise passes, and a lookup failure rewrites only on Vercel |
| Middleware.GuestRedirectCarriesUrl | middleware.ts:50-55 | the guest sign-in target is the fixed query prefix followed by the encoded URL, unchanged |
| Middleware.GuestsNotRedirectedHome | middleware.ts:58-62 | a guest's token never leads to the redirect home |
| Middleware.SecondCheckOnlyPasses | middleware.ts:22-29 | when the first configuration check passes and the secret is missing, the request is not on Vercel, so the second check's Vercel arm is never the one that decides |
| PreviewAttachment.DocumentLabel | components/preview-attachment.tsx:115-133 | the label is "PDF", "DOC" or "DOCX" exactly for those content types, and "Arquivo" exactly for every other |
| PreviewAttachment.FailureHintIff | components/preview-attachment.tsx:121-200 | the failed-extraction hint appears exactly for a PDF, DOC or DOCX whose extraction failed, and the paste area exactly when a paste handler is also given |
| PreviewAttachment.BlockedDocumentShowsSelector | components/preview-attachment.tsx:118-133 | a document the composer would block offers the type selector exactly when a handler is given, and is labelled with its document kind |
| PreviewAttachment.PasteConfirm | components/preview-attachment.tsx:17-22 | confirming passes on only the trimmed text, and only when it is non-empty |
| PreviewAttachment.PasteConfirmIff | components/preview-attachment.tsx:17-60 | the confirm button is enabled exactly when confirming passes text on, which is exactly when the value has a non-white-space character; the text passed on is already trimmed |
| PreviewAttachment.OnSelect | components/preview-attachment.tsx:210-215 | the handler is called exactly for "pi" and "contestacao" |
| PreviewAttachment.SelectRoundTrip | components/preview-attachment.tsx:207-215 | choosing the option shown for a type reports that type, and the empty option reports nothing |
| PreviewAttachment.FilePartsShowImages | components/preview-attachment.tsx:141-148 | every attachment the composer sends as a file part is shown as an image thumbnail |
| RevisorChecklist.HasReadyIff | components/revisor-checklist.tsx:23-28 | the search finds an attachment of that kind exactly when some attachment has extracted text and that type label |
| RevisorChecklist.ChecklistFor | components/revisor-checklist.tsx:19-21 | the checklist is hidden exactly when the chat has messages |
| RevisorChecklist.ChecklistIff | components/revisor-checklist.tsx:16-65 | on an empty chat the PI and Contestação ticks hold exactly when an attachment with text carries that label, and the base tick exactly when a knowledge id is selected, whose count is then shown |
| RevisorChecklist.TickedDocumentIsSent | components/revisor-checklist.tsx:23-28 | a ticked document goes out, in the composer's next message, as a document part with that label |
| PromptSelector.OfferedPrompts | components/prompt-selector.tsx:65-76 | the filter never lists more prompts than it is given |
| PromptSelector.OfferedPromptsIff | components/prompt-selector.tsx:65-76 | a prompt is listed exactly when it is in the list and the filter offers it |
| PromptSelector.OfferedCons | components/prompt-selector.tsx:65-76 | the first prompt is kept exactly when it is offered, ahead of the rest's filtering |
| PromptSelector.MenuByCase | components/prompt-selector.tsx:16-76 | the menu lists, in order, "explicar-fluxo" always, "auditar" exactly with attachments, and "roteiros" and "bancodetese" exactly once the chat has messages |
| PromptSelector.PromptMenu.constructor | components/prompt-selector.tsx:63 | the menu starts closed, with nothing sent |
| PromptSelector.PromptMenu.HandleSelect | components/prompt-selector.tsx:78-85 | choosing sends one user message whose only part is the prompt's full text, then closes the menu |
| ChatHeader.ToggleExceedsLimit | components/chat-header.tsx:119-123 | as written, toggling a new id into a selection of 20 gives 21 ids, one more than the limit the dialog announces (line 216) and the chat request enforces (app/(chat)/api/chat/schema.ts:54) |
| ChatHeader.ToggledIds | components/chat-header.tsx:119-123 | a present id is removed wherever it occurs and every other id kept; an absent id is appended only while there are fewer than 20; no other id appears |
| ChatHeader.ToggleKeepsLimit | components/chat-header.tsx:119-123 | the corrected toggle never takes a selection within the limit past 20 |
| ChatHeader.ToggleCorrectionAgrees | components/chat-header.tsx:119-123 | the corrected toggle behaves as the written one wherever the written one stays within the limit |
| ChatHeader.ToggleTwice | components/chat-header.tsx:119-123 | ticking an unticked document and unticking it again restores the selection |
| ChatHeader.WithCreated | components/chat-header.tsx:90-92 | a created document is appended only while fewer than 20 are selected |
| ChatHeader.CreatedKeepsLimit | components/chat-header.tsx:90-92 | adding a created document never takes the selection past 20 |
| ChatHeader.AddDocumentOutcome | components/chat-header.tsx:66-97 | a blank trimmed title or content is refused with the fixed error and no request; otherwise exactly one request carries the trimmed pair, the form is no longer busy, a failure shows an error and keeps the selection, and a creation clears the form and adds the id within the limit |
| ChatHeader.SamePropsIff | components/chat-header.tsx:297-308 | the header skips a re-render exactly when every prop it compares is equal, the id lists element by element |
| ChatHeader.Header.constructor | components/chat-header.tsx:50-58 | the header starts with both dialogs closed, its local copies equal to the parent's values, an empty form and no requests |
| ChatHeader.Header.HandleOpenChange | components/chat-header.tsx:101-108 | opening loads the parent's instructions into the local copy; closing writes the local copy back to the parent |
| ChatHeader.Header.HandleKnowledgeOpenChange | components/chat-header.tsx:110-117 | opening loads the parent's selection into the local copy; closing writes the local copy back to the parent |
| ChatHeader.Header.ToggleKnowledgeId | components/chat-header.tsx:119-123 | the local selection becomes the corrected toggle of itself |
| ChatHeader.Header.HandleAddDocument | components/chat-header.tsx:66-97 | the form, the local selection and the requests made become what the add-document outcome says |

## Left out

- Rendering, styling, toasts, focus and height effects, cookies, local storage, `history.pushState` and the model selector: they show state but do not change the modelled decisions.
- The upload, extraction, classification and storage pipeline behind `/api/files/*`: its code is not part of this model. Each upload's outcome is an input (`MultimodalInput.UploadReply`).
- The network. The `fetch` answers of the document fetcher, the upload endpoints and `/api/knowledge`, and the PATCH `/api/vote` request, are inputs or are not modelled. `setTimeout` waits are recorded as delays, not slept.
- `Date.now()`, `new Date()`, `Math.random()` and `readFile` are parameters: `now`, the random draws and the `disk` map.
- The session-token lookup (`getToken` and the guest-email test) and `encodeURIComponent(request.url)` are inputs of `Middleware.Route`. Environment variables are reduced to whether each is set to a non-empty value.
- The generation of the three documents (an LLM call) is an input: one settled result per document. The promises' concurrency is not modelled, because the tool awaits them in index order.
- The `docx` library objects and `Packer.toBuffer`: paragraphs are the `DocumentToDocx.Paragraph` values they are built from, and no bytes are produced.
- `lib/db/queries.ts` (`saveDocument` and the rest): a save is an effect in the tool's trace, and its outcome is an input of `RevisorDocumentsTool.DocumentsTool.Execute` (a failed save throws and ends the run). The database itself is not modelled.
- String lengths, indices and slices count Unicode code points (`string` is `seq<char>`), while JavaScript's `length` and `slice` count UTF-16 code units. The two agree for text without characters outside the Basic Multilingual Plane (emoji and the like). For other text the model does not claim JavaScript's split points: the typing-reveal window, the 400-character chunks of the documents tool, the length checks of the document detector and the prompt validator, the 115-character file-name stem and the 120-character bound on file names.
- `initialArtifactData` (hooks/use-artifact) is not part of this model. `DataStreamHandler` takes it as a parameter.
- The stream handlers of the other artifact kinds (code, image, sheet) are not part of this model. The handler applies the text kind's `onStreamPart`, and the delivery theorem assumes the current kind is already text, since the handler reads it from before the batch.
- `toUpperCase` covers ASCII and Latin-1 letters only; other characters are left unchanged. Titles with other letters are not claimed to behave as in JavaScript.
- Regular-expression word boundaries (`\b`) in the acronym check are ASCII word boundaries. The regex `lastIndex` reset has no counterpart, because the model has no shared regex state.
- PromptBuilder.FixedChecksCarryOver: the default-built prompt is not proved to pass validation, because the base instruction text is a parameter. Only the carry-over is proved: the checks that the base instructions pass, the built prompt passes too.
- DocxDownload.SemicolonTitleTruncated: states the truncation for every clean head and tail around a `;` rather than for one literal title.
- The copy-to-clipboard call, SWR revalidation and the `mutate` of `/api/knowledge` are effects outside the state modelled.

## Findings

| source | as written | input that shows it | evidently intended | confidence | as-written member | corrected member |
|---|---|---|---|---|---|---|
| lib/utils.ts:150-162 | the guard is `index > documents.length`, so an index equal to the length reaches `documents[index].createdAt` on `undefined` | a list of one document and index 1 | an index at or past the end falls back to the current time, like the other out-of-range cases | not executed | Utils.TimestampAtLengthFails | Utils.TimestampByIndex |
| components/chat-header.tsx:119-123 | `toggleKnowledgeId` appends an absent id without a limit, while the dialog announces "máx. 20", the add-document path caps at 20, and the chat request schema rejects more than 20 | a selection of 20 ids and a click on a 21st document | an absent id is appended only while fewer than 20 are selected | not executed | ChatHeader.ToggleExceedsLimit | ChatHeader.ToggleKeepsLimit |
| lib/document-to-docx.ts:123-130 | `sanitizeDocxFilename` keeps `;`, but the download action reads the name from `Content-Disposition` with a pattern that stops at `;` (artifacts/text/client.tsx:211) | the title "a;b", exported as "a;b.docx" and downloaded as "a" | the downloaded name is the exported name, so `;` is replaced like the other forbidden characters | not executed | DocxDownload.SemicolonTitleTruncated | DocxDownload.SafeNameRoundTrip |
