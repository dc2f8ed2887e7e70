/**
 * components/revisor-defesa-documents-result.tsx: how the output of the
 * three-document tool is shown: an error, a pending line while there are no
 * ids, or one result entry per id with its title or a numbered fallback.
 */
module DocumentsResult {
  import opened Wrappers
  import opened StreamParts
  import opened DocumentTool
  import RevisorDocumentsTool

  /** The tool's output as the component reads it; `error` is the key's text when present. */
  datatype ToolOutput = ToolOutput(ids: Option<seq<string>>, titles: Option<seq<string>>, error: Option<string>)

  datatype ResultView = ErrorView(message: string) | Pending | DocumentList(entries: seq<ResultRef>)

  function DigitChar(d: nat): char
    requires d < 10
  {
    ('0' as int + d) as char
  }

  /** The decimal form of `n`, as a template literal prints it. */
  function Decimal(n: nat): (r: string)
    ensures r != []
    ensures forall i :: 0 <= i < |r| ==> '0' <= r[i] <= '9'
  {
    if n < 10 then [DigitChar(n)] else Decimal(n / 10) + [DigitChar(n % 10)]
  }

  /** The value of a string of decimal digits. */
  function DecimalValue(s: string): nat
    requires forall i :: 0 <= i < |s| ==> '0' <= s[i] <= '9'
  {
    if s == [] then 0 else 10 * DecimalValue(s[..|s| - 1]) + (s[|s| - 1] as int - '0' as int)
  }

  /** Different numbers print differently: reading the digits back gives the number. */
  lemma {:induction false} DecimalRoundTrip(n: nat)
    ensures DecimalValue(Decimal(n)) == n
  {
    if n >= 10 {
      DecimalRoundTrip(n / 10);
      var s := Decimal(n);
      assert s[..|s| - 1] == Decimal(n / 10);
    }
  }

  /** `Documento ${index + 1}` */
  function FallbackTitle(index: nat): string {
    "Documento " + Decimal(index + 1)
  }

  /** `titles[index] ?? \`Documento ${index + 1}\`` */
  function EntryTitle(titles: seq<string>, index: nat): string {
    if index < |titles| then titles[index] else FallbackTitle(index)
  }

  function Entries(ids: seq<string>, titles: seq<string>): (r: seq<ResultRef>)
    ensures |r| == |ids|
  {
    seq(|ids|, i requires 0 <= i < |ids| => ResultRef(ids[i], EntryTitle(titles, i), TextKind))
  }

  /** `RevisorDefesaDocumentsResult` */
  function View(output: Option<ToolOutput>): ResultView {
    if output.Some? && output.value.error.Some? then
      ErrorView("Erro ao criar os 3 documentos: " + output.value.error.value)
    else
      var ids := if output.Some? then output.value.ids.GetOr([]) else [];
      var titles := if output.Some? then output.value.titles.GetOr([]) else [];
      if |ids| == 0 then Pending else DocumentList(Entries(ids, titles))
  }

  /**
   * An error key wins; otherwise no ids means pending; otherwise the list
   * has one text entry per id, in order, titled by the title at its index
   * or "Documento <index + 1>" when that title is missing.
   */
  lemma ViewCases(output: Option<ToolOutput>)
    ensures output.Some? && output.value.error.Some? ==> View(output).ErrorView?
    ensures !(output.Some? && output.value.error.Some?) ==>
      (View(output) == Pending <==> output.None? || output.value.ids.None? || output.value.ids.value == [])
    ensures View(output).DocumentList? ==>
      var ids := output.value.ids.value;
      var titles := output.value.titles.GetOr([]);
      && |View(output).entries| == |ids|
      && forall i :: 0 <= i < |ids| ==>
           && View(output).entries[i].id == ids[i] && View(output).entries[i].kind == TextKind
           && View(output).entries[i].title == (if i < |titles| then titles[i] else FallbackTitle(i))
  {
  }

  /** Fallback titles name distinct documents. */
  lemma FallbackTitlesDiffer(i: nat, j: nat)
    requires i != j
    ensures FallbackTitle(i) != FallbackTitle(j)
  {
    DecimalRoundTrip(i + 1);
    DecimalRoundTrip(j + 1);
    var p := "Documento ";
    assert FallbackTitle(i)[|p|..] == Decimal(i + 1);
    assert FallbackTitle(j)[|p|..] == Decimal(j + 1);
  }

  /** What the tool returns on success, shown: one entry per document, with the tool's own titles. */
  lemma ToolResultShown(r: RevisorDocumentsTool.ToolResult)
    requires |r.ids| == |r.titles| && r.ids != []
    ensures View(Some(ToolOutput(Some(r.ids), Some(r.titles), None))) == DocumentList(Entries(r.ids, r.titles))
    ensures forall i :: 0 <= i < |r.ids| ==> Entries(r.ids, r.titles)[i] == ResultRef(r.ids[i], r.titles[i], TextKind)
  {
  }

  /** Clicking the i-th entry outside a read-only chat opens the i-th document. */
  lemma ClickEntryOpensDocument(output: Option<ToolOutput>, i: int, current: UIArtifact, box: BoundingBox)
    requires View(output).DocumentList? && 0 <= i < |View(output).entries|
    ensures var a := ClickResult(current, View(output).entries[i], false, box);
      a.documentId == output.value.ids.value[i] && a.kind == TextKind && a.status == Idle && a.isVisible
  {
  }
}
