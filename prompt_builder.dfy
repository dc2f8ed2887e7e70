/**
 * `buildSystemPrompt` of lib/prompts/agente-trabalhista/index.ts: the base
 * instructions, the "\n---\n" separator, then the dynamic block (reference
 * date, optional office name, thesis-bank line) joined by newlines. The base
 * instruction text and today's `toLocaleDateString("pt-BR")` are parameters.
 */
module PromptBuilder {
  import opened Wrappers
  import opened JsText
  import PromptValidation

  /** `AgenteTrabalhistaContext`; an omitted field is `None`. */
  datatype Context = Context(bancoTesesAtivo: Option<bool>, nomeEscritorio: Option<string>, data: Option<string>)

  /** `SEPARATOR` */
  const Separator: string := "\n---\n"

  const BancoPrefix: string := "Banco de teses "
  const AtivoLine: string := BancoPrefix + "ATIVO: inclua a Se\U{E7}\U{E3}o 6 (Quadro de Teses) no Doc 1 quando aplic\U{E1}vel."
  const InativoLine: string := BancoPrefix + "INATIVO: n\U{E3}o inclua a Se\U{E7}\U{E3}o 6 nem o Quadro de Teses no Doc 1."
  const OfficePrefix: string := "Escrit\U{F3}rio: "

  function HeaderLine(data: string): string {
    "## CONTEXTO DIN\U{C2}MICO\nData de refer\U{EA}ncia: " + data + "."
  }

  function OfficeLine(nome: string): string {
    OfficePrefix + nome + "."
  }

  /** `ctx?.data ?? today` */
  function ReferenceDate(ctx: Option<Context>, today: string): string {
    if ctx.Some? && ctx.value.data.Some? then ctx.value.data.value else today
  }

  /** `ctx?.nomeEscritorio?.trim()`, with `undefined` as `None`. */
  function NomeEscritorio(ctx: Option<Context>): Option<string> {
    if ctx.Some? && ctx.value.nomeEscritorio.Some? then Some(Trim(ctx.value.nomeEscritorio.value)) else None
  }

  /** `ctx?.bancoTesesAtivo === true` */
  predicate BancoTesesAtivo(ctx: Option<Context>) {
    ctx.Some? && ctx.value.bancoTesesAtivo == Some(true)
  }

  /** The `dynamic` array in push order. */
  function DynamicLines(ctx: Option<Context>, today: string): seq<string> {
    var nome := NomeEscritorio(ctx);
    [HeaderLine(ReferenceDate(ctx, today))]
    + (if nome.Some? && nome.value != "" then [OfficeLine(nome.value)] else [])
    + [if BancoTesesAtivo(ctx) then AtivoLine else InativoLine]
  }

  /** `buildSystemPrompt(ctx)` given the base instructions and today's date: `[base, SEPARATOR, dynamic.join("\n")].join("")`. */
  function BuildSystemPrompt(base: string, ctx: Option<Context>, today: string): string {
    base + Separator + Join(DynamicLines(ctx, today), "\n")
  }

  lemma {:induction false} JoinEndsWithLast(xs: seq<string>, sep: string)
    requires xs != []
    ensures EndsWith(Join(xs, sep), xs[|xs| - 1])
  {
    if |xs| > 1 {
      JoinEndsWithLast(xs[1..], sep);
      var j := Join(xs[1..], sep);
      assert Join(xs, sep) == (xs[0] + sep) + j;
      assert (xs[0] + sep + j)[|xs[0] + sep + j| - |xs[|xs| - 1]|..] == j[|j| - |xs[|xs| - 1]|..];
    }
  }

  lemma EndsWithAppend(a: string, b: string, x: string)
    requires EndsWith(b, x)
    ensures EndsWith(a + b, x)
  {
    assert (a + b)[|a + b| - |x|..] == b[|b| - |x|..];
  }

  /** The first characters of the dynamic lines and the second-to-last of the thesis-bank lines tell them apart. */
  lemma LineShapes(d: string)
    ensures HeaderLine(d)[0] == '#' && OfficePrefix[0] == 'E'
    ensures AtivoLine[0] == 'B' && InativoLine[0] == 'B'
    ensures |AtivoLine| >= 2 && |InativoLine| >= 2
    ensures AtivoLine[|AtivoLine| - 2] == 'l' && InativoLine[|InativoLine| - 2] == '1'
  {
    assert AtivoLine[0] == BancoPrefix[0] && InativoLine[0] == BancoPrefix[0];
  }

  /**
   * The prompt is the base instructions, then "\n---\n", then the
   * "## CONTEXTO DINÂMICO" header with the reference date: a supplied
   * `ctx.data` verbatim, today's date otherwise.
   */
  lemma {:induction false} PromptLayout(base: string, ctx: Option<Context>, today: string)
    ensures var r := BuildSystemPrompt(base, ctx, today);
      && |r| >= |base| + 5
      && r[..|base|] == base
      && r[|base|..|base| + 5] == Separator
      && StartsWith(r[|base| + 5..], HeaderLine(ReferenceDate(ctx, today)))
    ensures ctx.Some? && ctx.value.data.Some? ==> ReferenceDate(ctx, today) == ctx.value.data.value
  {
    var lines := DynamicLines(ctx, today);
    var block := Join(lines, "\n");
    var r := BuildSystemPrompt(base, ctx, today);
    assert block == lines[0] + "\n" + Join(lines[1..], "\n");
    assert r == base + Separator + block;
    assert r[|base|..|base| + 5] == Separator;
    assert r[|base| + 5..] == block;
    assert block[..|lines[0]|] == lines[0];
  }

  /** The prompt ends with the ATIVO line exactly when `bancoTesesAtivo === true`, and with the INATIVO line otherwise. */
  lemma {:induction false} BancoTesesLine(base: string, ctx: Option<Context>, today: string)
    ensures var r := BuildSystemPrompt(base, ctx, today);
      && (EndsWith(r, AtivoLine) <==> BancoTesesAtivo(ctx))
      && (EndsWith(r, InativoLine) <==> !BancoTesesAtivo(ctx))
  {
    var lines := DynamicLines(ctx, today);
    var r := BuildSystemPrompt(base, ctx, today);
    var last := lines[|lines| - 1];
    JoinEndsWithLast(lines, "\n");
    EndsWithAppend(base + Separator, Join(lines, "\n"), last);
    LineShapes("");
    assert last == if BancoTesesAtivo(ctx) then AtivoLine else InativoLine;
    assert r[|r| - 2] == last[|last| - 2];
  }

  /**
   * The dynamic block has an "Escritório: " line exactly when a trimmed,
   * non-empty office name was given, and that line carries the trimmed name.
   */
  lemma {:induction false} OfficeLineIff(ctx: Option<Context>, today: string)
    ensures var lines := DynamicLines(ctx, today);
      (exists i :: 0 <= i < |lines| && StartsWith(lines[i], OfficePrefix))
      <==> NomeEscritorio(ctx).Some? && NomeEscritorio(ctx).value != ""
    ensures var nome := NomeEscritorio(ctx);
      nome.Some? && nome.value != "" ==> DynamicLines(ctx, today)[1] == OfficeLine(nome.value)
  {
    var lines := DynamicLines(ctx, today);
    LineShapes(ReferenceDate(ctx, today));
    assert !StartsWith(lines[0], OfficePrefix);
    assert !StartsWith(lines[|lines| - 1], OfficePrefix);
    var nome := NomeEscritorio(ctx);
    if nome.Some? && nome.value != "" {
      assert StartsWith(lines[1], OfficePrefix);
    } else {
      assert |lines| == 2;
    }
  }

  /** Text found in the base instructions is still found in the built prompt, upper-cased or not. */
  lemma MarkersCarryOver(base: string, rest: string, x: string)
    ensures Contains(base, x) ==> Contains(base + rest, x)
    ensures Contains(ToUpper(base), x) ==> Contains(ToUpper(base + rest), x)
  {
    if Contains(base, x) {
      ContainsAppend(base, rest, x);
    }
    ToUpperAppend(base, rest);
    if Contains(ToUpper(base), x) {
      ContainsAppend(ToUpper(base), ToUpper(rest), x);
    }
  }

  /** The validator's checks E1, E3, E4, E5 and E6 that hold of the base instructions still hold of the built prompt. */
  lemma {:induction false} BaseChecksCarryOver(base: string, ctx: Option<Context>, today: string)
    requires forall e :: e in PromptValidation.ErrorsOf(base) ==> e == PromptValidation.E2
    ensures forall e :: e in PromptValidation.ErrorsOf(BuildSystemPrompt(base, ctx, today)) ==> e == PromptValidation.E2
  {
    var rest := Separator + Join(DynamicLines(ctx, today), "\n");
    assert BuildSystemPrompt(base, ctx, today) == base + rest;
    ChecksCarryOver(base, rest);
  }

  /** Appending text to a prompt that passes every check but E2 keeps it passing them. */
  lemma {:induction false} ChecksCarryOver(base: string, rest: string)
    requires forall e :: e in PromptValidation.ErrorsOf(base) ==> e == PromptValidation.E2
    ensures forall e :: e in PromptValidation.ErrorsOf(base + rest) ==> e == PromptValidation.E2
  {
    var errs := PromptValidation.ErrorsOf(base + rest);
    FixedChecksCarryOver(base, rest);
    forall e | e in errs ensures e == PromptValidation.E2 {
      PromptValidation.CountIn(errs, e);
      match e
      case E6(t) =>
        PromptValidation.E6Iff(base + rest, t);
        PromptValidation.E6Iff(base, t);
        MarkersCarryOver(base, rest, t);
      case _ =>
    }
  }

  lemma {:induction false} FixedChecksCarryOver(base: string, rest: string)
    requires forall e :: e in PromptValidation.ErrorsOf(base) ==> e == PromptValidation.E2
    ensures var m := PromptValidation.ErrorsOf(base + rest);
      && PromptValidation.Count(m, PromptValidation.E1) == 0 && PromptValidation.Count(m, PromptValidation.E3) == 0
      && PromptValidation.Count(m, PromptValidation.E4) == 0 && PromptValidation.Count(m, PromptValidation.E5) == 0
    ensures |base| >= PromptValidation.MinLength
  {
    var errs := PromptValidation.ErrorsOf(base);
    PromptValidation.FixedErrorsOnce(base);
    PromptValidation.FixedErrorsOnce(base + rest);
    PromptValidation.CountIn(errs, PromptValidation.E1);
    PromptValidation.CountIn(errs, PromptValidation.E3);
    PromptValidation.CountIn(errs, PromptValidation.E4);
    PromptValidation.CountIn(errs, PromptValidation.E5);
    MarkersCarryOver(base, rest, "GATE-1");
    MarkersCarryOver(base, rest, "Gate 0.5");
    MarkersCarryOver(base, rest, "art. 342");
    MarkersCarryOver(base, rest, "art.342");
  }
}
