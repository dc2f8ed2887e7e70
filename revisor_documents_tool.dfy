/**
 * The server tool that produces the three Revisor documents
 * (lib/ai/tools/create-revisor-defesa-documents.ts). The three generations
 * run concurrently and are awaited in index order; for each document the
 * tool writes the kind, id, title and clear parts, the content in chunks of
 * 400 characters and a finish part, and then saves the document when the
 * session has a user. Every write and every save goes to one ordered trace.
 * A rejected generation, or a save that fails (lib/db/queries.ts turns a
 * database error into a thrown error), ends the run with no result.
 */
module RevisorDocumentsTool {
  import opened Wrappers
  import opened JsText
  import opened StreamParts

  const ChunkSize := 400

  const Confirmation := "Os 3 documentos foram criados e est\U{E3}o vis\U{ED}veis: Avalia\U{E7}\U{E3}o, Roteiro Advogado, Roteiro Preposto."

  /** How one generation settled: with its text (`None` for null or undefined), or rejected. */
  datatype Generation = Produced(text: Option<string>) | Rejected

  datatype SavedDocument = SavedDocument(id: string, title: string, content: string, kind: ArtifactKind, userId: string)

  /** One observable effect of the tool: a part written to the stream or a saved document. */
  datatype Effect = Write(part: StreamPart) | Persist(doc: SavedDocument)

  datatype ToolResult = ToolResult(ids: seq<string>, titles: seq<string>, content: string)

  /** The chunks written for `content` from `offset` on: `slice(offset, offset + 400)` while `offset` is inside it. */
  function ChunksFrom(content: string, offset: nat): seq<string>
    decreases |content| - offset
  {
    if offset >= |content| then []
    else [Slice(content, offset, offset + ChunkSize)] + ChunksFrom(content, offset + ChunkSize)
  }

  function Chunks(content: string): seq<string> {
    ChunksFrom(content, 0)
  }

  /** The text-delta writes carrying `chunks`, in order. */
  function Deltas(chunks: seq<string>): (r: seq<Effect>)
    ensures |r| == |chunks|
  {
    if chunks == [] then [] else [Write(DataTextDelta(Some(chunks[0])))] + Deltas(chunks[1..])
  }

  /** The parts written for one document. */
  function DocumentWrites(id: string, title: string, content: string): seq<Effect> {
    [Write(DataKind(TextKind)), Write(DataId(id)), Write(DataTitle(title)), Write(DataClear)]
    + Deltas(Chunks(content))
    + [Write(DataFinish)]
  }

  /** `if (userId)`: a session user id that is present and not empty. */
  predicate HasUser(userId: Option<string>) {
    userId.Some? && userId.value != ""
  }

  function Saved(id: string, title: string, content: string, userId: Option<string>): (r: SavedDocument)
    requires HasUser(userId)
  {
    SavedDocument(id, title, content, TextKind, userId.value)
  }

  /** Everything the tool does for one document: its writes, then its save when there is a user. */
  function DocumentEffects(id: string, title: string, content: string, userId: Option<string>): seq<Effect> {
    DocumentWrites(id, title, content)
    + (if HasUser(userId) then [Persist(Saved(id, title, content, userId))] else [])
  }

  /** `(await contentPromises[i]) ?? ""` for a generation that did not reject. */
  function ContentOf(g: Generation): string
    requires g.Produced?
  {
    g.text.GetOr("")
  }

  /** The effects of the first `n` documents, in index order. */
  function EffectsUpTo(ids: seq<string>, titles: seq<string>, gens: seq<Generation>, userId: Option<string>, n: nat): seq<Effect>
    requires n <= |ids| && n <= |titles| && n <= |gens|
    requires forall j :: 0 <= j < n ==> gens[j].Produced?
  {
    if n == 0 then []
    else EffectsUpTo(ids, titles, gens, userId, n - 1)
         + DocumentEffects(ids[n - 1], titles[n - 1], ContentOf(gens[n - 1]), userId)
  }

  /**
   * Document `j` goes through: its generation was produced and, when the
   * session has a user, its save succeeded. `saveDocument` turns every
   * database error into a thrown error, which ends the run.
   */
  predicate Completes(g: Generation, userId: Option<string>, saveOk: bool) {
    g.Produced? && (HasUser(userId) ==> saveOk)
  }

  /** The index of the first document that does not go through, or the number of documents when all do. */
  function FirstFailure(gens: seq<Generation>, saveOk: seq<bool>, userId: Option<string>, from: nat): (r: nat)
    requires from <= |gens| == |saveOk|
    ensures from <= r <= |gens|
    ensures r < |gens| ==> !Completes(gens[r], userId, saveOk[r])
    ensures forall j :: from <= j < r ==> Completes(gens[j], userId, saveOk[j])
    decreases |gens| - from
  {
    if from == |gens| then from
    else if !Completes(gens[from], userId, saveOk[from]) then from
    else FirstFailure(gens, saveOk, userId, from + 1)
  }

  /** The run stops at `i` when the documents before it went through and `i` failed or is the end. */
  lemma FirstFailureAt(gens: seq<Generation>, saveOk: seq<bool>, userId: Option<string>, i: nat)
    requires i <= |gens| == |saveOk|
    requires forall j :: 0 <= j < i ==> Completes(gens[j], userId, saveOk[j])
    requires i < |gens| ==> !Completes(gens[i], userId, saveOk[i])
    ensures FirstFailure(gens, saveOk, userId, 0) == i
  {
  }

  /**
   * What the run leaves in the trace when it stops at `n`: the blocks of the
   * documents before `n` and, when document `n` was generated but its save
   * failed, that document's writes without a save.
   */
  function StoppedEffects(ids: seq<string>, titles: seq<string>, gens: seq<Generation>, userId: Option<string>, n: nat): seq<Effect>
    requires n <= |ids| && n <= |titles| && n <= |gens|
    requires forall j :: 0 <= j < n ==> gens[j].Produced?
  {
    EffectsUpTo(ids, titles, gens, userId, n)
    + (if n < |ids| && n < |titles| && n < |gens| && gens[n].Produced?
       then DocumentWrites(ids[n], titles[n], ContentOf(gens[n])) else [])
  }

  /** The chunks put back together give the content. */
  lemma {:induction false} ChunksFromConcat(content: string, offset: nat)
    requires offset <= |content|
    ensures Concat(ChunksFrom(content, offset)) == content[offset..]
    decreases |content| - offset
  {
    if offset < |content| {
      var next := offset + ChunkSize;
      if next <= |content| {
        ChunksFromConcat(content, next);
        assert content[offset..] == content[offset..next] + content[next..];
      } else {
        assert ChunksFrom(content, next) == [];
        assert Concat(ChunksFrom(content, offset)) == content[offset..|content|] + "";
      }
    }
  }

  lemma ChunksConcat(content: string)
    ensures Concat(Chunks(content)) == content
  {
    ChunksFromConcat(content, 0);
    assert content[0..] == content;
  }

  /**
   * Every chunk holds between 1 and 400 characters, every chunk but the last
   * holds exactly 400, and empty content gives no chunk at all.
   */
  lemma {:induction false} ChunksFromSizes(content: string, offset: nat)
    ensures var cs := ChunksFrom(content, offset);
      && (offset >= |content| <==> cs == [])
      && (forall i :: 0 <= i < |cs| ==> 1 <= |cs[i]| <= ChunkSize)
      && (forall i :: 0 <= i < |cs| - 1 ==> |cs[i]| == ChunkSize)
    decreases |content| - offset
  {
    if offset < |content| {
      ChunksFromSizes(content, offset + ChunkSize);
      var cs := ChunksFrom(content, offset);
      var rest := ChunksFrom(content, offset + ChunkSize);
      assert cs == [cs[0]] + rest;
      assert forall i :: 1 <= i < |cs| ==> cs[i] == rest[i - 1];
      if rest != [] {
        assert |cs[0]| == ChunkSize;
      }
    }
  }

  lemma ChunkSizes(content: string)
    ensures var cs := Chunks(content);
      && (content == [] <==> cs == [])
      && (forall i :: 0 <= i < |cs| ==> 1 <= |cs[i]| <= ChunkSize)
      && (forall i :: 0 <= i < |cs| - 1 ==> |cs[i]| == ChunkSize)
  {
    ChunksFromSizes(content, 0);
  }

  /** The saves in a trace, in order. */
  function Persisted(trace: seq<Effect>): seq<SavedDocument> {
    if trace == [] then []
    else (if trace[0].Persist? then [trace[0].doc] else []) + Persisted(trace[1..])
  }

  /** The stream parts in a trace, in order. */
  function Written(trace: seq<Effect>): seq<StreamPart> {
    if trace == [] then []
    else (if trace[0].Write? then [trace[0].part] else []) + Written(trace[1..])
  }

  lemma ProjectionsAppend(a: seq<Effect>, b: seq<Effect>)
    ensures Persisted(a + b) == Persisted(a) + Persisted(b)
    ensures Written(a + b) == Written(a) + Written(b)
  {
    PersistedAppend(a, b);
    WrittenAppend(a, b);
  }

  lemma {:induction false} PersistedAppend(a: seq<Effect>, b: seq<Effect>)
    ensures Persisted(a + b) == Persisted(a) + Persisted(b)
  {
    if a == [] {
      assert a + b == b;
    } else {
      var head := if a[0].Persist? then [a[0].doc] else [];
      assert (a + b)[0] == a[0] && (a + b)[1..] == a[1..] + b;
      assert Persisted(a + b) == head + Persisted(a[1..] + b);
      PersistedAppend(a[1..], b);
      AppendAssoc(head, Persisted(a[1..]), Persisted(b));
    }
  }

  lemma {:induction false} WrittenAppend(a: seq<Effect>, b: seq<Effect>)
    ensures Written(a + b) == Written(a) + Written(b)
  {
    if a == [] {
      assert a + b == b;
    } else {
      var head := if a[0].Write? then [a[0].part] else [];
      assert (a + b)[0] == a[0] && (a + b)[1..] == a[1..] + b;
      assert Written(a + b) == head + Written(a[1..] + b);
      WrittenAppend(a[1..], b);
      AppendAssoc(head, Written(a[1..]), Written(b));
    }
  }

  lemma {:induction false} DeltasHaveNoSaves(chunks: seq<string>)
    ensures Persisted(Deltas(chunks)) == []
  {
    if chunks != [] {
      DeltasHaveNoSaves(chunks[1..]);
      assert Deltas(chunks)[1..] == Deltas(chunks[1..]);
    }
  }

  lemma {:induction false} OnlyWritesNoSaves(w: seq<Effect>)
    requires forall i :: 0 <= i < |w| ==> w[i].Write?
    ensures Persisted(w) == []
  {
    if w != [] {
      OnlyWritesNoSaves(w[1..]);
    }
  }

  lemma WritesHaveNoSaves(id: string, title: string, content: string)
    ensures Persisted(DocumentWrites(id, title, content)) == []
  {
    var head := [Write(DataKind(TextKind)), Write(DataId(id)), Write(DataTitle(title)), Write(DataClear)];
    var ds := Deltas(Chunks(content));
    ProjectionsAppend(head, ds);
    ProjectionsAppend(head + ds, [Write(DataFinish)]);
    OnlyWritesNoSaves(head);
    OnlyWritesNoSaves([Write(DataFinish)]);
    DeltasHaveNoSaves(Chunks(content));
  }

  /** The parts a document's writes carry. */
  lemma WrittenDocument(id: string, title: string, content: string, userId: Option<string>)
    ensures Persisted(DocumentEffects(id, title, content, userId))
         == if HasUser(userId) then [Saved(id, title, content, userId)] else []
    ensures Written(DocumentEffects(id, title, content, userId)) == Written(DocumentWrites(id, title, content))
  {
    var w := DocumentWrites(id, title, content);
    var tail: seq<Effect> := if HasUser(userId) then [Persist(Saved(id, title, content, userId))] else [];
    ProjectionsAppend(w, tail);
    WritesHaveNoSaves(id, title, content);
  }

  /**
   * A run that completes saves the three documents, in order and with the
   * content that was streamed, exactly when the session has a user.
   */
  lemma SavesExactlyWithUser(ids: seq<string>, titles: seq<string>, gens: seq<Generation>, userId: Option<string>)
    requires |ids| == 3 && |titles| == 3 && |gens| == 3
    requires forall j :: 0 <= j < 3 ==> gens[j].Produced?
    ensures Persisted(EffectsUpTo(ids, titles, gens, userId, 3))
         == if HasUser(userId)
            then [Saved(ids[0], titles[0], ContentOf(gens[0]), userId),
                  Saved(ids[1], titles[1], ContentOf(gens[1]), userId),
                  Saved(ids[2], titles[2], ContentOf(gens[2]), userId)]
            else []
  {
    var e0 := DocumentEffects(ids[0], titles[0], ContentOf(gens[0]), userId);
    var e1 := DocumentEffects(ids[1], titles[1], ContentOf(gens[1]), userId);
    var e2 := DocumentEffects(ids[2], titles[2], ContentOf(gens[2]), userId);
    ThreeEffects(ids, titles, gens, userId);
    PersistedAppend(e0, e1);
    PersistedAppend(e0 + e1, e2);
    WrittenDocument(ids[0], titles[0], ContentOf(gens[0]), userId);
    WrittenDocument(ids[1], titles[1], ContentOf(gens[1]), userId);
    WrittenDocument(ids[2], titles[2], ContentOf(gens[2]), userId);
    assert Persisted(e0 + e1 + e2) == Persisted(e0) + Persisted(e1) + Persisted(e2);
  }

  /** What is written to the stream does not depend on whether the session has a user. */
  lemma {:induction false} WritesIndependentOfUser(ids: seq<string>, titles: seq<string>, gens: seq<Generation>,
                                                   u1: Option<string>, u2: Option<string>, n: nat)
    requires n <= |ids| && n <= |titles| && n <= |gens|
    requires forall j :: 0 <= j < n ==> gens[j].Produced?
    ensures Written(EffectsUpTo(ids, titles, gens, u1, n)) == Written(EffectsUpTo(ids, titles, gens, u2, n))
  {
    if n > 0 {
      WritesIndependentOfUser(ids, titles, gens, u1, u2, n - 1);
      WrittenStep(ids, titles, gens, u1, n);
      WrittenStep(ids, titles, gens, u2, n);
    }
  }

  /** What the `n`-th document adds to the stream. */
  lemma WrittenStep(ids: seq<string>, titles: seq<string>, gens: seq<Generation>, userId: Option<string>, n: nat)
    requires 0 < n <= |ids| && n <= |titles| && n <= |gens|
    requires forall j :: 0 <= j < n ==> gens[j].Produced?
    ensures Written(EffectsUpTo(ids, titles, gens, userId, n))
         == Written(EffectsUpTo(ids, titles, gens, userId, n - 1)) + Written(DocumentWrites(ids[n - 1], titles[n - 1], ContentOf(gens[n - 1])))
  {
    var prev := EffectsUpTo(ids, titles, gens, userId, n - 1);
    var d := DocumentEffects(ids[n - 1], titles[n - 1], ContentOf(gens[n - 1]), userId);
    assert EffectsUpTo(ids, titles, gens, userId, n) == prev + d;
    ProjectionsAppend(prev, d);
    WrittenDocument(ids[n - 1], titles[n - 1], ContentOf(gens[n - 1]), userId);
  }

  /** The layout of one document's effects. */
  lemma DocumentEffectsLayout(id: string, title: string, content: string, userId: Option<string>)
    ensures var d := DocumentEffects(id, title, content, userId);
      && 5 <= |d|
      && d[0] == Write(DataKind(TextKind)) && d[1] == Write(DataId(id)) && d[2] == Write(DataTitle(title))
      && (HasUser(userId) ==> d[|d| - 1] == Persist(Saved(id, title, content, userId)) && d[|d| - 2] == Write(DataFinish))
      && (!HasUser(userId) ==> d[|d| - 1] == Write(DataFinish))
  {
  }

  /**
   * Document `i`'s effects follow those of the documents before it, at the
   * start of the effects of the first `n` documents.
   */
  lemma {:induction false} DocumentBlockInTrace(ids: seq<string>, titles: seq<string>, gens: seq<Generation>, userId: Option<string>,
                                               n: nat, i: nat)
    requires n <= |ids| && n <= |titles| && n <= |gens| && i < n
    requires forall j :: 0 <= j < n ==> gens[j].Produced?
    ensures var t := EffectsUpTo(ids, titles, gens, userId, n);
            var block := EffectsUpTo(ids, titles, gens, userId, i) + DocumentEffects(ids[i], titles[i], ContentOf(gens[i]), userId);
      |block| <= |t| && t[..|block|] == block
  {
    var block := EffectsUpTo(ids, titles, gens, userId, i) + DocumentEffects(ids[i], titles[i], ContentOf(gens[i]), userId);
    assert EffectsUpTo(ids, titles, gens, userId, i + 1) == block;
    EffectsPrefix(ids, titles, gens, userId, i + 1, n);
  }

  /**
   * A document's block that follows `a` at the start of a trace `t`: it
   * opens with the kind, id and title parts; with a user its save comes
   * right after its finish part, otherwise the finish part closes it.
   */
  lemma BlockOfPrefix(t: seq<Effect>, a: seq<Effect>, id: string, title: string, content: string, userId: Option<string>)
    requires var d := DocumentEffects(id, title, content, userId);
      |a + d| <= |t| && t[..|a + d|] == a + d
    ensures var d := DocumentEffects(id, title, content, userId);
            var e := |a| + |d|;
      && |a| + 5 <= e <= |t|
      && t[|a|] == Write(DataKind(TextKind)) && t[|a| + 1] == Write(DataId(id)) && t[|a| + 2] == Write(DataTitle(title))
      && (HasUser(userId) ==> t[e - 1] == Persist(Saved(id, title, content, userId)) && t[e - 2] == Write(DataFinish))
      && (!HasUser(userId) ==> t[e - 1] == Write(DataFinish))
  {
    var d := DocumentEffects(id, title, content, userId);
    DocumentEffectsLayout(id, title, content, userId);
    PrefixAt(t, a, d, 0);
    PrefixAt(t, a, d, 1);
    PrefixAt(t, a, d, 2);
    PrefixAt(t, a, d, |d| - 2);
    PrefixAt(t, a, d, |d| - 1);
  }

  /** An element of the part `d` of a prefix `a + d` of `t`. */
  lemma PrefixAt(t: seq<Effect>, a: seq<Effect>, d: seq<Effect>, k: int)
    requires |a + d| <= |t| && t[..|a + d|] == a + d && 0 <= k < |d|
    ensures t[|a| + k] == d[k]
  {
    assert t[|a| + k] == t[..|a + d|][|a| + k];
  }

  /** The effects of the first `m` documents begin the effects of the first `n`. */
  lemma {:induction false} EffectsPrefix(ids: seq<string>, titles: seq<string>, gens: seq<Generation>, userId: Option<string>,
                                         m: nat, n: nat)
    requires m <= n <= |ids| && n <= |titles| && n <= |gens|
    requires forall j :: 0 <= j < n ==> gens[j].Produced?
    ensures |EffectsUpTo(ids, titles, gens, userId, m)| <= |EffectsUpTo(ids, titles, gens, userId, n)|
    ensures EffectsUpTo(ids, titles, gens, userId, n)[..|EffectsUpTo(ids, titles, gens, userId, m)|]
         == EffectsUpTo(ids, titles, gens, userId, m)
    decreases n - m
  {
    if m < n {
      EffectsPrefix(ids, titles, gens, userId, m, n - 1);
      var p := EffectsUpTo(ids, titles, gens, userId, n - 1);
      var d := DocumentEffects(ids[n - 1], titles[n - 1], ContentOf(gens[n - 1]), userId);
      var k := |EffectsUpTo(ids, titles, gens, userId, m)|;
      assert EffectsUpTo(ids, titles, gens, userId, n) == p + d;
      assert (p + d)[..k] == p[..k];
    } else {
      var t := EffectsUpTo(ids, titles, gens, userId, n);
      assert t[..|t|] == t;
    }
  }

  /** The effects of the first one, two and three documents. */
  lemma ThreeEffects(ids: seq<string>, titles: seq<string>, gens: seq<Generation>, userId: Option<string>)
    requires |ids| == 3 && |titles| == 3 && |gens| == 3
    requires forall j :: 0 <= j < 3 ==> gens[j].Produced?
    ensures var e0 := DocumentEffects(ids[0], titles[0], ContentOf(gens[0]), userId);
            var e1 := DocumentEffects(ids[1], titles[1], ContentOf(gens[1]), userId);
            var e2 := DocumentEffects(ids[2], titles[2], ContentOf(gens[2]), userId);
      && EffectsUpTo(ids, titles, gens, userId, 0) == []
      && EffectsUpTo(ids, titles, gens, userId, 1) == e0
      && EffectsUpTo(ids, titles, gens, userId, 2) == e0 + e1
      && EffectsUpTo(ids, titles, gens, userId, 3) == e0 + e1 + e2
  {
    var e0 := DocumentEffects(ids[0], titles[0], ContentOf(gens[0]), userId);
    assert EffectsUpTo(ids, titles, gens, userId, 1) == [] + e0;
  }

  class DocumentsTool {
    /** Everything written to the chat's data stream and saved to the database, in order. */
    var trace: seq<Effect>

    constructor ()
      ensures trace == []
    {
      trace := [];
    }

    /**
     * The writes and the save for one document; `saveOk` is whether
     * `saveDocument` succeeds. `failed` reports the thrown save, after
     * which nothing is saved.
     */
    method EmitDocument(id: string, title: string, content: string, userId: Option<string>, saveOk: bool)
      returns (failed: bool)
      modifies this
      ensures failed <==> HasUser(userId) && !saveOk
      ensures !failed ==> trace == old(trace) + DocumentEffects(id, title, content, userId)
      ensures failed ==> trace == old(trace) + DocumentWrites(id, title, content)
    {
      var opening := [Write(DataKind(TextKind)), Write(DataId(id)), Write(DataTitle(title)), Write(DataClear)];
      trace := trace + opening;
      var head := trace;
      var offset: nat := 0;
      while offset < |content|
        invariant trace + Deltas(ChunksFrom(content, offset)) == head + Deltas(Chunks(content))
      {
        var chunk := Slice(content, offset, offset + ChunkSize);
        var delta := [Write(DataTextDelta(Some(chunk)))];
        assert Deltas(ChunksFrom(content, offset)) == delta + Deltas(ChunksFrom(content, offset + ChunkSize));
        AppendAssoc(trace, delta, Deltas(ChunksFrom(content, offset + ChunkSize)));
        trace := trace + delta;
        offset := offset + ChunkSize;
      }
      assert trace == head + Deltas(Chunks(content));
      trace := trace + [Write(DataFinish)];
      AppendAssoc3(old(trace), opening, Deltas(Chunks(content)), [Write(DataFinish)]);
      failed := false;
      if HasUser(userId) {
        if !saveOk {
          failed := true;
          return;
        }
        trace := trace + [Persist(Saved(id, title, content, userId))];
        AppendAssoc(old(trace), DocumentWrites(id, title, content), [Persist(Saved(id, title, content, userId))]);
      }
    }

    /**
     * One call of the tool. The `ids` are the three fresh identifiers, `gens`
     * how the three generations settled and `saveOk` whether each save
     * would succeed. A rejected generation or a failed save stops the run at
     * its index with an error and no result.
     */
    method Execute(avaliacaoTitle: string, roteiroAdvogadoTitle: string, roteiroPrepostoTitle: string,
                   ids: seq<string>, gens: seq<Generation>, saveOk: seq<bool>, userId: Option<string>)
      returns (r: Option<ToolResult>)
      requires |ids| == 3 && |gens| == 3 && |saveOk| == 3
      modifies this
      ensures var titles := [avaliacaoTitle, roteiroAdvogadoTitle, roteiroPrepostoTitle];
              var n := FirstFailure(gens, saveOk, userId, 0);
              && trace == old(trace) + StoppedEffects(ids, titles, gens, userId, n)
              && r == if n == 3 then Some(ToolResult(ids, titles, Confirmation)) else None
    {
      var titles := [avaliacaoTitle, roteiroAdvogadoTitle, roteiroPrepostoTitle];
      var i := 0;
      while i < 3
        invariant 0 <= i <= 3
        invariant forall j :: 0 <= j < i ==> Completes(gens[j], userId, saveOk[j])
        invariant trace == old(trace) + EffectsUpTo(ids, titles, gens, userId, i)
      {
        if gens[i].Rejected? {
          FirstFailureAt(gens, saveOk, userId, i);
          return None;
        }
        var failed := EmitDocument(ids[i], titles[i], gens[i].text.GetOr(""), userId, saveOk[i]);
        if failed {
          FirstFailureAt(gens, saveOk, userId, i);
          AppendAssoc(old(trace), EffectsUpTo(ids, titles, gens, userId, i),
                      DocumentWrites(ids[i], titles[i], ContentOf(gens[i])));
          return None;
        }
        AppendAssoc(old(trace), EffectsUpTo(ids, titles, gens, userId, i),
                    DocumentEffects(ids[i], titles[i], ContentOf(gens[i]), userId));
        i := i + 1;
      }
      FirstFailureAt(gens, saveOk, userId, 3);
      assert StoppedEffects(ids, titles, gens, userId, 3) == EffectsUpTo(ids, titles, gens, userId, 3);
      return Some(ToolResult(ids, titles, Confirmation));
    }
  }
}
