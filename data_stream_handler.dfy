/**
 * The client's data-stream handler (components/data-stream-handler.tsx):
 * it drains the buffer of received `data-*` parts, revalidates the chat
 * history for each chat title, lets the text artifact react to each other
 * part, and folds that part into the artifact record.
 */
module DataStreamHandler {
  import opened Wrappers
  import opened StreamParts
  import TextArtifact

  /**
   * The `setArtifact` reducer run for each part. With no draft the result is
   * the initial artifact set to streaming; otherwise `data-id`, `data-title`,
   * `data-kind` and `data-clear` set their field and the streaming status,
   * `data-finish` sets idle, and every other part leaves the draft alone.
   */
  function Reduce(draft: Option<UIArtifact>, part: StreamPart, initial: UIArtifact): (r: UIArtifact)
    ensures draft.None? ==> r == initial.(status := Streaming)
    ensures draft.Some? ==>
      && r.documentId == (if part.DataId? then part.id else draft.value.documentId)
      && r.title == (if part.DataTitle? then part.title else draft.value.title)
      && r.kind == (if part.DataKind? then part.kind else draft.value.kind)
      && r.content == (if part.DataClear? then "" else draft.value.content)
      && r.isVisible == draft.value.isVisible
      && r.boundingBox == draft.value.boundingBox
      && r.status == (if part.DataFinish? then Idle
                      else if part.DataId? || part.DataTitle? || part.DataKind? || part.DataClear? then Streaming
                      else draft.value.status)
  {
    match draft
    case None => initial.(status := Streaming)
    case Some(a) =>
      match part
      case DataId(id) => a.(documentId := id, status := Streaming)
      case DataTitle(t) => a.(title := t, status := Streaming)
      case DataKind(k) => a.(kind := k, status := Streaming)
      case DataClear => a.(content := "", status := Streaming)
      case DataFinish => a.(status := Idle)
      case _ => a
  }

  /** The artifact and the text artifact's metadata, as the client holds them. */
  datatype View = View(artifact: UIArtifact, metadata: TextMetadata)

  /**
   * One part of a drained batch. `batchKind` is the artifact kind seen when
   * the batch started: the text artifact's handler runs only when it was
   * `text`, even if a `data-kind` part of the same batch changed it.
   */
  function Step(v: View, batchKind: ArtifactKind, part: StreamPart, initial: UIArtifact): View
  {
    if part.DataChatTitle? then v
    else
      var a := if batchKind == TextKind then TextArtifact.StreamPartArtifact(v.artifact, part) else v.artifact;
      var m := if batchKind == TextKind then TextArtifact.StreamPartMetadata(v.metadata, part) else v.metadata;
      View(Reduce(Some(a), part, initial), m)
  }

  /** The view after a batch of parts, taken in order. */
  function Replay(v: View, batchKind: ArtifactKind, parts: seq<StreamPart>, initial: UIArtifact): View
  {
    if parts == [] then v
    else Step(Replay(v, batchKind, parts[..|parts| - 1], initial), batchKind, parts[|parts| - 1], initial)
  }

  /** The number of chat-title parts in a batch: one history revalidation each. */
  function ChatTitleCount(parts: seq<StreamPart>): nat
  {
    if parts == [] then 0
    else ChatTitleCount(parts[..|parts| - 1]) + (if parts[|parts| - 1].DataChatTitle? then 1 else 0)
  }

  /** Replaying two runs one after the other is replaying their concatenation. */
  lemma {:induction false} ReplayAppend(v: View, k: ArtifactKind, a: seq<StreamPart>, b: seq<StreamPart>, initial: UIArtifact)
    ensures Replay(v, k, a + b, initial) == Replay(Replay(v, k, a, initial), k, b, initial)
    decreases |b|
  {
    if b == [] {
      assert a + b == a;
    } else {
      assert (a + b)[..|a + b| - 1] == a + b[..|b| - 1];
      ReplayAppend(v, k, a, b[..|b| - 1], initial);
    }
  }

  /** Chat-title parts change neither the artifact nor the metadata. */
  lemma {:induction false} ChatTitlesChangeNothing(v: View, k: ArtifactKind, parts: seq<StreamPart>, initial: UIArtifact)
    requires forall i :: 0 <= i < |parts| ==> parts[i].DataChatTitle?
    ensures Replay(v, k, parts, initial) == v
    ensures ChatTitleCount(parts) == |parts|
  {
    if parts != [] {
      ChatTitlesChangeNothing(v, k, parts[..|parts| - 1], initial);
    }
  }

  class Handler {
    /** The parts received and not yet handled. */
    var dataStream: seq<StreamPart>
    var artifact: UIArtifact
    var metadata: TextMetadata
    /** How many times the chat history was revalidated. */
    var historyRevalidations: nat
    /** The artifact the reducer falls back to when it has no draft. */
    const initial: UIArtifact

    constructor (initial: UIArtifact, metadata: TextMetadata)
      ensures this.initial == initial && artifact == initial && this.metadata == metadata
      ensures dataStream == [] && historyRevalidations == 0
    {
      this.initial := initial;
      artifact := initial;
      this.metadata := metadata;
      dataStream := [];
      historyRevalidations := 0;
    }

    /** A part arrives on the data stream. */
    method Receive(part: StreamPart)
      modifies this
      ensures dataStream == old(dataStream) + [part]
      ensures artifact == old(artifact) && metadata == old(metadata)
      ensures historyRevalidations == old(historyRevalidations)
    {
      dataStream := dataStream + [part];
    }

    /**
     * The handler's effect: it empties the buffer and applies its parts in
     * order; an empty buffer changes nothing.
     */
    method Flush()
      modifies this
      ensures dataStream == []
      ensures View(artifact, metadata)
           == Replay(View(old(artifact), old(metadata)), old(artifact.kind), old(dataStream), initial)
      ensures historyRevalidations == old(historyRevalidations) + ChatTitleCount(old(dataStream))
    {
      if |dataStream| == 0 {
        return;
      }
      var newDeltas := dataStream;
      dataStream := [];
      var batchKind := artifact.kind;
      var i := 0;
      while i < |newDeltas|
        invariant 0 <= i <= |newDeltas| && dataStream == []
        invariant View(artifact, metadata)
               == Replay(View(old(artifact), old(metadata)), batchKind, newDeltas[..i], initial)
        invariant historyRevalidations == old(historyRevalidations) + ChatTitleCount(newDeltas[..i])
      {
        var delta := newDeltas[i];
        assert newDeltas[..i + 1][..i] == newDeltas[..i];
        if delta.DataChatTitle? {
          historyRevalidations := historyRevalidations + 1;
        } else {
          if batchKind == TextKind {
            metadata := TextArtifact.StreamPartMetadata(metadata, delta);
            artifact := TextArtifact.StreamPartArtifact(artifact, delta);
          }
          artifact := Reduce(Some(artifact), delta, initial);
        }
        i := i + 1;
      }
      assert newDeltas[..i] == newDeltas;
    }
  }
}
