/**
 * What the client ends up showing when it replays what the Revisor tool
 * wrote: the server side (RevisorDocumentsTool) and the client side
 * (DataStreamHandler with the text artifact) taken together.
 */
module DocumentDelivery {
  import opened Wrappers
  import opened JsText
  import opened StreamParts
  import opened RevisorDocumentsTool
  import opened DataStreamHandler

  /** The parts the text deltas carry. */
  function DeltaParts(chunks: seq<string>): seq<StreamPart> {
    if chunks == [] then [] else [DataTextDelta(Some(chunks[0]))] + DeltaParts(chunks[1..])
  }

  lemma {:induction false} WrittenDeltas(chunks: seq<string>)
    ensures Written(Deltas(chunks)) == DeltaParts(chunks)
  {
    if chunks != [] {
      WrittenDeltas(chunks[1..]);
      assert Deltas(chunks)[1..] == Deltas(chunks[1..]);
    }
  }

  lemma WrittenHead(id: string, title: string)
    ensures Written([Write(DataKind(TextKind)), Write(DataId(id)), Write(DataTitle(title)), Write(DataClear)])
         == [DataKind(TextKind), DataId(id), DataTitle(title), DataClear]
  {
    var w := [Write(DataKind(TextKind)), Write(DataId(id)), Write(DataTitle(title)), Write(DataClear)];
    assert w[1..][1..][1..][1..] == [];
    assert Written(w[1..][1..][1..]) == [DataClear];
    assert Written(w[1..][1..]) == [DataTitle(title), DataClear];
  }

  lemma ReplayCons(v: View, k: ArtifactKind, p: StreamPart, rest: seq<StreamPart>, initial: UIArtifact)
    ensures Replay(v, k, [p] + rest, initial) == Replay(Step(v, k, p, initial), k, rest, initial)
  {
    ReplayAppend(v, k, [p], rest, initial);
    assert [p][..0] == [];
  }

  /**
   * Replaying the chunks from `offset` on, in a text batch, onto an artifact
   * that is streaming and holds the content up to `offset`, leaves the whole
   * content and changes nothing else: in particular the artifact's
   * visibility, since before each chunk the length is a multiple of 400 and
   * never inside the 401 to 449 window that opens the panel.
   */
  lemma {:induction false} ReplayChunks(v: View, content: string, offset: nat, initial: UIArtifact)
    requires offset <= |content| && offset % ChunkSize == 0
    requires v.artifact.content == content[..offset] && v.artifact.status == Streaming
    ensures Replay(v, TextKind, DeltaParts(ChunksFrom(content, offset)), initial)
         == View(v.artifact.(content := content), v.metadata)
    decreases |content| - offset
  {
    if offset == |content| {
      assert content[..offset] == content;
    } else {
      var next := offset + ChunkSize;
      var chunk := Slice(content, offset, next);
      var rest := ChunksFrom(content, next);
      assert |v.artifact.content| == offset;
      DeltaStep(v, chunk, initial);
      var v' := View(v.artifact.(content := content[..offset] + chunk), v.metadata);
      assert ChunksFrom(content, offset) == [chunk] + rest;
      assert ([chunk] + rest)[1..] == rest;
      ReplayCons(v, TextKind, DataTextDelta(Some(chunk)), DeltaParts(rest), initial);
      if next <= |content| {
        assert content[..offset] + chunk == content[..next];
        ReplayChunks(v', content, next, initial);
      } else {
        assert content[..offset] + chunk == content;
        assert rest == [];
      }
    }
  }

  /** A text delta onto a streaming artifact outside the reveal window only appends to the content. */
  lemma DeltaStep(v: View, chunk: string, initial: UIArtifact)
    requires v.artifact.status == Streaming && !TextArtifact.InRevealWindow(v.artifact)
    ensures Step(v, TextKind, DataTextDelta(Some(chunk)), initial)
         == View(v.artifact.(content := v.artifact.content + chunk), v.metadata)
  {
  }

  /** The four opening parts of a document set its kind, id and title and empty its content, in any batch. */
  lemma HeadReplay(v: View, k: ArtifactKind, id: string, title: string, initial: UIArtifact)
    ensures Replay(v, k, [DataKind(TextKind), DataId(id), DataTitle(title), DataClear], initial)
         == View(v.artifact.(kind := TextKind, documentId := id, title := title, content := "", status := Streaming), v.metadata)
  {
    var p1, p2, p3, p4 := DataKind(TextKind), DataId(id), DataTitle(title), DataClear;
    var a := v.artifact;
    var s1 := View(a.(kind := TextKind, status := Streaming), v.metadata);
    var s2 := View(s1.artifact.(documentId := id), v.metadata);
    var s3 := View(s2.artifact.(title := title), v.metadata);
    var s4 := View(s3.artifact.(content := ""), v.metadata);
    assert Step(v, k, p1, initial) == s1 by { OpeningStep(v, k, p1, initial); }
    assert Step(s1, k, p2, initial) == s2 by { OpeningStep(s1, k, p2, initial); }
    assert Step(s2, k, p3, initial) == s3 by { OpeningStep(s2, k, p3, initial); }
    assert Step(s3, k, p4, initial) == s4 by { OpeningStep(s3, k, p4, initial); }
    assert Replay(v, k, [p1, p2], initial) == s2 by { ReplayPair(v, k, p1, p2, initial); }
    assert Replay(s2, k, [p3, p4], initial) == s4 by { ReplayPair(s2, k, p3, p4, initial); }
    assert [p1, p2] + [p3, p4] == [p1, p2, p3, p4];
    ReplayAppend(v, k, [p1, p2], [p3, p4], initial);
  }

  lemma ReplayPair(v: View, k: ArtifactKind, p: StreamPart, q: StreamPart, initial: UIArtifact)
    ensures Replay(v, k, [p, q], initial) == Step(Step(v, k, p, initial), k, q, initial)
  {
    assert [p][..0] == [];
    assert Replay(v, k, [p], initial) == Step(v, k, p, initial);
    assert [p, q][..1] == [p];
  }

  /** An opening part acts on the artifact alone, in a batch of any kind. */
  lemma OpeningStep(v: View, k: ArtifactKind, p: StreamPart, initial: UIArtifact)
    requires p.DataKind? || p.DataId? || p.DataTitle? || p.DataClear?
    ensures Step(v, k, p, initial) == View(
      match p
      case DataKind(kind) => v.artifact.(kind := kind, status := Streaming)
      case DataId(id) => v.artifact.(documentId := id, status := Streaming)
      case DataTitle(t) => v.artifact.(title := t, status := Streaming)
      case _ => v.artifact.(content := "", status := Streaming),
      v.metadata)
  {
  }

  /** The parts written for one document: the four opening parts, the deltas and the finish part. */
  lemma WrittenDocumentWrites(id: string, title: string, content: string)
    ensures Written(DocumentWrites(id, title, content))
         == [DataKind(TextKind), DataId(id), DataTitle(title), DataClear] + DeltaParts(Chunks(content)) + [DataFinish]
  {
    var head := [Write(DataKind(TextKind)), Write(DataId(id)), Write(DataTitle(title)), Write(DataClear)];
    var ds := Deltas(Chunks(content));
    ProjectionsAppend(head, ds);
    ProjectionsAppend(head + ds, [Write(DataFinish)]);
    WrittenDeltas(Chunks(content));
    WrittenHead(id, title);
    assert Written([Write(DataFinish)]) == [DataFinish];
  }

  /** Replaying one document's parts: the opening parts, then the deltas, then the finish part. */
  lemma ReplayDocument(v: View, k: ArtifactKind, id: string, title: string, content: string, initial: UIArtifact)
    ensures var v4 := View(v.artifact.(kind := TextKind, documentId := id, title := title, content := "", status := Streaming), v.metadata);
      Replay(v, k, Written(DocumentWrites(id, title, content)), initial)
        == Step(Replay(v4, k, DeltaParts(Chunks(content)), initial), k, DataFinish, initial)
  {
    var hp := [DataKind(TextKind), DataId(id), DataTitle(title), DataClear];
    var ds := DeltaParts(Chunks(content));
    WrittenDocumentWrites(id, title, content);
    ReplayAppend(v, k, hp + ds, [DataFinish], initial);
    ReplayAppend(v, k, hp, ds, initial);
    HeadReplay(v, k, id, title, initial);
    assert [DataFinish][..0] == [];
  }

  /**
   * One document streamed into a batch that starts on a text artifact
   * leaves the artifact holding that document's id, title and whole content
   * with the idle status; the visibility, the bounding box and the
   * suggestions are as they were.
   */
  lemma DeliveredDocument(v: View, id: string, title: string, content: string, initial: UIArtifact)
    requires v.artifact.kind == TextKind
    ensures Replay(v, v.artifact.kind, Written(DocumentWrites(id, title, content)), initial)
         == View(v.artifact.(documentId := id, title := title, content := content, status := Idle), v.metadata)
  {
    ReplayDocument(v, TextKind, id, title, content, initial);
    var v4 := View(v.artifact.(kind := TextKind, documentId := id, title := title, content := "", status := Streaming), v.metadata);
    assert content[..0] == "";
    ReplayChunks(v4, content, 0, initial);
  }

  /**
   * A batch that starts while the artifact shows another kind still takes
   * the id, title and kind, but the text artifact's handler does not run for
   * it, so none of the content arrives.
   */
  lemma StaleKindDropsContent(v: View, id: string, title: string, content: string, initial: UIArtifact)
    requires v.artifact.kind != TextKind
    ensures var r := Replay(v, v.artifact.kind, Written(DocumentWrites(id, title, content)), initial);
            r.artifact.content == "" && r.artifact.kind == TextKind && r.artifact.documentId == id
  {
    var k := v.artifact.kind;
    ReplayDocument(v, k, id, title, content, initial);
    var v4 := View(v.artifact.(kind := TextKind, documentId := id, title := title, content := "", status := Streaming), v.metadata);
    IgnoredDeltas(v4, k, Chunks(content), initial);
  }

  lemma {:induction false} IgnoredDeltas(v: View, k: ArtifactKind, chunks: seq<string>, initial: UIArtifact)
    requires k != TextKind
    ensures Replay(v, k, DeltaParts(chunks), initial) == v
  {
    if chunks != [] {
      ReplayCons(v, k, DataTextDelta(Some(chunks[0])), DeltaParts(chunks[1..]), initial);
      IgnoredDeltas(v, k, chunks[1..], initial);
    }
  }

  /**
   * Replaying, in one text batch, everything a completed run of the tool
   * wrote leaves the artifact on the last document with its whole content,
   * whether or not the documents were saved.
   */
  lemma {:induction false} DeliveredRun(v: View, ids: seq<string>, titles: seq<string>, gens: seq<Generation>,
                                         userId: Option<string>, n: nat, initial: UIArtifact)
    requires 1 <= n <= |ids| && n <= |titles| && n <= |gens|
    requires forall j :: 0 <= j < n ==> gens[j].Produced?
    requires v.artifact.kind == TextKind
    ensures Replay(v, TextKind, Written(EffectsUpTo(ids, titles, gens, userId, n)), initial)
         == View(v.artifact.(documentId := ids[n - 1], title := titles[n - 1],
                             content := ContentOf(gens[n - 1]), status := Idle), v.metadata)
  {
    var last := DocumentEffects(ids[n - 1], titles[n - 1], ContentOf(gens[n - 1]), userId);
    var before := EffectsUpTo(ids, titles, gens, userId, n - 1);
    ProjectionsAppend(before, last);
    WrittenDocument(ids[n - 1], titles[n - 1], ContentOf(gens[n - 1]), userId);
    ReplayAppend(v, TextKind, Written(before), Written(last), initial);
    var mid := Replay(v, TextKind, Written(before), initial);
    if n > 1 {
      DeliveredRun(v, ids, titles, gens, userId, n - 1, initial);
    } else {
      assert Written(before) == [];
    }
    DeliveredDocument(mid, ids[n - 1], titles[n - 1], ContentOf(gens[n - 1]), initial);
  }
}
