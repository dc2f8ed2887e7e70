/**
 * The static validator of the Revisor de Defesas system prompt
 * (lib/prompts/agente-trabalhista/validate.ts). Each finding is kept as its
 * code plus the value the message interpolates: errors E1-E6 decide
 * validity, warnings A1-A3 only inform.
 */
module PromptValidation {
  import opened JsText

  /** `MIN_LENGTH` */
  const MinLength: int := 500
  /** The token estimate above which A1 is raised. */
  const TokenBudget: int := 4000

  /** `TITULOS_DOCS` */
  const TitulosDocs: seq<string> := ["AVALIA\U{C7}\U{C3}O DA DEFESA", "ROTEIRO ADVOGADO", "ROTEIRO PREPOSTO"]

  datatype PromptError = E1 | E2 | E3 | E4 | E5 | E6(titulo: string)
  datatype PromptWarning = A1(tokens: int) | A2 | A3(found: nat)

  datatype ValidationResult = ValidationResult(
    valido: bool,
    erros: seq<PromptError>,
    avisos: seq<PromptWarning>,
    totalTokensEstimados: int,
    totalModulos: nat,
    modulosVazios: seq<string>)

  /** `estimateTokens`: `Math.ceil(length / 4)`. */
  function EstimateTokens(prompt: string): (n: nat)
    ensures 4 * n >= |prompt| && 4 * n < |prompt| + 4
  {
    (|prompt| + 3) / 4
  }

  /** `getDocTemplatesSection`: from the first "## DOC 1:" to the end, or "". */
  function DocTemplatesSection(prompt: string): (r: string)
    ensures IndexOf(prompt, "## DOC 1:") == -1 ==> r == ""
    ensures IndexOf(prompt, "## DOC 1:") >= 0 ==> StartsWith(r, "## DOC 1:") && EndsWith(prompt, r)
  {
    var start := IndexOf(prompt, "## DOC 1:");
    if start == -1 then "" else prompt[start..]
  }

  /** The ASCII word characters `\b` separates from the rest. */
  predicate IsWordChar(c: char) {
    ('A' <= c <= 'Z') || ('a' <= c <= 'z') || ('0' <= c <= '9') || c == '_'
  }

  predicate IsSigla(w: string) {
    w == "RTE" || w == "RDO" || w == "DAJ" || w == "DTC"
  }

  /** `/\b(RTE|RDO|DAJ|DTC)\b/` matches at `i`. */
  predicate SiglaAt(s: string, i: int) {
    0 <= i && i + 3 <= |s| && IsSigla(s[i..i + 3])
    && (i == 0 || !IsWordChar(s[i - 1]))
    && (i + 3 == |s| || !IsWordChar(s[i + 3]))
  }

  predicate HasSigla(s: string) {
    exists i | 0 <= i < |s| :: SiglaAt(s, i)
  }

  /**
   * `s.replace(/\[[^\]]*\]/g, "[]")`: each '[' that has a ']' after it is
   * collapsed with everything up to that ']'; a '[' with no ']' after it
   * stays as it is.
   */
  function BlankPlaceholders(s: string): (r: string)
    ensures |r| <= |s|
    decreases |s|
  {
    if s == [] then []
    else if s[0] == '[' && IndexOf(s, "]") > 0 then "[]" + BlankPlaceholders(s[IndexOf(s, "]") + 1..])
    else [s[0]] + BlankPlaceholders(s[1..])
  }

  /** `siglasProibidasNosDocumentos` */
  predicate SiglasProibidasNosDocumentos(prompt: string) {
    var docTemplates := DocTemplatesSection(prompt);
    docTemplates != "" && HasSigla(BlankPlaceholders(docTemplates))
  }

  /** The number of non-overlapping "---" found scanning from `i`. */
  function SeparatorsFrom(s: string, i: nat): (n: nat)
    ensures 3 * n <= |s| - i || (i > |s| && n == 0)
    decreases |s| - i
  {
    if i + 3 > |s| then 0
    else if s[i..i + 3] == "---" then 1 + SeparatorsFrom(s, i + 3)
    else SeparatorsFrom(s, i + 1)
  }

  /** `countSeparators` */
  function CountSeparators(prompt: string): nat {
    SeparatorsFrom(prompt, 0)
  }

  /** `/^## /m` matches at `i`: "## " at the start of a line. */
  predicate ModuleAt(s: string, i: int) {
    0 <= i && i + 3 <= |s| && s[i..i + 3] == "## " && (i == 0 || IsLineTerminator(s[i - 1]))
  }

  function ModulesFrom(s: string, i: nat): nat
    decreases |s| - i
  {
    if i >= |s| then 0 else (if ModuleAt(s, i) then 1 else 0) + ModulesFrom(s, i + 1)
  }

  /** `prompt.match(/^## /gm)?.length ?? 0` */
  function CountModules(prompt: string): nat {
    ModulesFrom(prompt, 0)
  }

  /** The E6 errors for the titles of `titulos` the upper-cased prompt lacks, in list order. */
  function MissingTitles(upper: string, titulos: seq<string>): (r: seq<PromptError>)
    ensures forall k :: 0 <= k < |r| ==> r[k].E6?
    ensures |r| <= |titulos|
  {
    if titulos == [] then []
    else
      var last := titulos[|titulos| - 1];
      MissingTitles(upper, titulos[..|titulos| - 1]) + (if Contains(upper, last) then [] else [E6(last)])
  }

  /** A title gets an E6 error exactly when it is in the list and the upper-cased prompt lacks it. */
  lemma {:induction false} MissingTitlesIff(upper: string, titulos: seq<string>, t: string)
    ensures E6(t) in MissingTitles(upper, titulos) <==> t in titulos && !Contains(upper, t)
  {
    if titulos != [] {
      var init, last := titulos[..|titulos| - 1], titulos[|titulos| - 1];
      MissingTitlesIff(upper, init, t);
      assert titulos == init + [last];
    }
  }

  /** Checking one more title extends the E6 list by that title's error, if any. */
  lemma MissingTitlesStep(upper: string, titulos: seq<string>, i: nat)
    requires i < |titulos|
    ensures MissingTitles(upper, titulos[..i + 1])
      == MissingTitles(upper, titulos[..i]) + (if Contains(upper, titulos[i]) then [] else [E6(titulos[i])])
  {
    assert titulos[..i + 1][..i] == titulos[..i];
  }

  /** How many times `x` was pushed onto `s`. */
  function Count(s: seq<PromptError>, x: PromptError): nat {
    if s == [] then 0 else (if s[0] == x then 1 else 0) + Count(s[1..], x)
  }

  lemma {:induction false} CountAppend(a: seq<PromptError>, b: seq<PromptError>, x: PromptError)
    ensures Count(a + b, x) == Count(a, x) + Count(b, x)
  {
    if a != [] {
      assert (a + b)[1..] == a[1..] + b;
      CountAppend(a[1..], b, x);
    } else {
      assert a + b == b;
    }
  }

  lemma {:induction false} CountIn(s: seq<PromptError>, x: PromptError)
    ensures x in s <==> Count(s, x) > 0
  {
    if s != [] {
      CountIn(s[1..], x);
      assert x in s <==> s[0] == x || x in s[1..];
    }
  }

  /** The one-element push of `e` when `c` holds. */
  function PushIf(c: bool, e: PromptError): seq<PromptError> {
    if c then [e] else []
  }

  /** The error list pushed for the given outcomes of checks E1-E5 and the E6 errors, in push order. */
  function ErrorList(e1: bool, e2: bool, e3: bool, e4: bool, e5: bool, missing: seq<PromptError>): seq<PromptError> {
    PushIf(e1, E1) + PushIf(e2, E2) + PushIf(e3, E3) + PushIf(e4, E4) + PushIf(e5, E5) + missing
  }

  /** How often an error occurs in the pushed list: once per failed check E1-E5 it names, plus its count among the E6 errors. */
  lemma {:induction false} ErrorListCount(e1: bool, e2: bool, e3: bool, e4: bool, e5: bool, missing: seq<PromptError>, x: PromptError)
    ensures Count(ErrorList(e1, e2, e3, e4, e5, missing), x)
      == (if e1 && x == E1 then 1 else 0) + (if e2 && x == E2 then 1 else 0) + (if e3 && x == E3 then 1 else 0)
       + (if e4 && x == E4 then 1 else 0) + (if e5 && x == E5 then 1 else 0) + Count(missing, x)
  {
    var p1, p2, p3, p4, p5 := PushIf(e1, E1), PushIf(e2, E2), PushIf(e3, E3), PushIf(e4, E4), PushIf(e5, E5);
    var q2 := p1 + p2;
    var q3 := q2 + p3;
    var q4 := q3 + p4;
    var q5 := q4 + p5;
    CountAppend(p1, p2, x);
    CountAppend(q2, p3, x);
    CountAppend(q3, p4, x);
    CountAppend(q4, p5, x);
    CountAppend(q5, missing, x);
    CountPushIf(e1, E1, x);
    CountPushIf(e2, E2, x);
    CountPushIf(e3, E3, x);
    CountPushIf(e4, E4, x);
    CountPushIf(e5, E5, x);
  }

  lemma CountPushIf(c: bool, e: PromptError, x: PromptError)
    ensures Count(PushIf(c, e), x) == if c && x == e then 1 else 0
  {
    if c {
      assert PushIf(c, e)[1..] == [];
    }
  }

  /** A list of E6 errors holds none of E1-E5. */
  lemma {:induction false} CountOnlyTitles(missing: seq<PromptError>, x: PromptError)
    requires forall k :: 0 <= k < |missing| ==> missing[k].E6?
    requires !x.E6?
    ensures Count(missing, x) == 0
  {
    if missing != [] {
      assert missing[0].E6?;
      CountOnlyTitles(missing[1..], x);
    }
  }

  /** The errors `validateSystemPrompt` pushes, in push order. */
  function ErrorsOf(prompt: string): seq<PromptError> {
    ErrorList(
      prompt == "" || |prompt| < MinLength,
      prompt != "" && SiglasProibidasNosDocumentos(prompt),
      prompt != "" && !Contains(prompt, "GATE-1"),
      prompt != "" && !Contains(prompt, "Gate 0.5"),
      prompt != "" && !Contains(prompt, "art. 342") && !Contains(prompt, "art.342"),
      if prompt != "" then MissingTitles(ToUpper(prompt), TitulosDocs) else [])
  }

  /** The warnings `validateSystemPrompt` pushes, in push order. */
  function WarningsOf(prompt: string): seq<PromptWarning> {
    (if EstimateTokens(prompt) > TokenBudget then [A1(EstimateTokens(prompt))] else [])
    + (if prompt != "" && !Contains(prompt, "@bancodetese") then [A2] else [])
    + (if prompt != "" && CountSeparators(prompt) < 3 then [A3(CountSeparators(prompt))] else [])
  }

  /** What `validateSystemPrompt` returns. */
  function ValidationOf(prompt: string): (r: ValidationResult)
    ensures r.valido <==> r.erros == []
    ensures r.modulosVazios == []
    ensures 4 * r.totalTokensEstimados >= |prompt| > 4 * r.totalTokensEstimados - 4
  {
    var erros := ErrorsOf(prompt);
    ValidationResult(erros == [], erros, WarningsOf(prompt), EstimateTokens(prompt), CountModules(prompt), [])
  }

  /** The E6 loop: one push per title the upper-cased prompt lacks, in title order. */
  method PushMissingTitles(erros: seq<PromptError>, upper: string, titulos: seq<string>) returns (out: seq<PromptError>)
    ensures out == erros + MissingTitles(upper, titulos)
  {
    out := erros;
    for i := 0 to |titulos|
      invariant out == erros + MissingTitles(upper, titulos[..i])
    {
      var titulo := titulos[i];
      MissingTitlesStep(upper, titulos, i);
      if !Contains(upper, titulo) {
        out := out + [E6(titulo)];
      }
    }
    assert titulos[..|titulos|] == titulos;
  }

  /** `validateSystemPrompt`, pushing into `erros` and `avisos` as it goes. */
  method ValidateSystemPrompt(prompt: string) returns (r: ValidationResult)
    ensures r == ValidationOf(prompt)
  {
    var erros := PushErrors(prompt);
    var totalTokensEstimados := EstimateTokens(prompt);
    var avisos := PushWarnings(prompt, totalTokensEstimados);
    r := ValidationResult(erros == [], erros, avisos, totalTokensEstimados, CountModules(prompt), []);
  }

  /** The error checks of `validateSystemPrompt`, E1 to E6 in order. */
  method PushErrors(prompt: string) returns (erros: seq<PromptError>)
    ensures erros == ErrorsOf(prompt)
  {
    erros := [];
    ghost var e1, e2, e3, e4, e5 := prompt == "" || |prompt| < MinLength,
      prompt != "" && SiglasProibidasNosDocumentos(prompt),
      prompt != "" && !Contains(prompt, "GATE-1"),
      prompt != "" && !Contains(prompt, "Gate 0.5"),
      prompt != "" && !Contains(prompt, "art. 342") && !Contains(prompt, "art.342");
    if prompt == "" || |prompt| < MinLength {
      erros := erros + [E1];
    }
    ghost var q1 := erros;
    assert q1 == PushIf(e1, E1);
    if prompt != "" && SiglasProibidasNosDocumentos(prompt) {
      erros := erros + [E2];
    }
    ghost var q2 := erros;
    assert q2 == q1 + PushIf(e2, E2);
    if prompt != "" && !Contains(prompt, "GATE-1") {
      erros := erros + [E3];
    }
    ghost var q3 := erros;
    assert q3 == q2 + PushIf(e3, E3);
    if prompt != "" && !Contains(prompt, "Gate 0.5") {
      erros := erros + [E4];
    }
    ghost var q4 := erros;
    assert q4 == q3 + PushIf(e4, E4);
    if prompt != "" && !Contains(prompt, "art. 342") && !Contains(prompt, "art.342") {
      erros := erros + [E5];
    }
    ghost var q5 := erros;
    assert q5 == q4 + PushIf(e5, E5);
    if prompt != "" {
      erros := PushMissingTitles(erros, ToUpper(prompt), TitulosDocs);
    } else {
      assert erros == q5 + [];
    }
    assert erros == ErrorList(e1, e2, e3, e4, e5, if prompt != "" then MissingTitles(ToUpper(prompt), TitulosDocs) else []);
  }

  /** The warning checks of `validateSystemPrompt`, A1 to A3 in order, given the token estimate. */
  method PushWarnings(prompt: string, totalTokensEstimados: nat) returns (avisos: seq<PromptWarning>)
    requires totalTokensEstimados == EstimateTokens(prompt)
    ensures avisos == WarningsOf(prompt)
  {
    avisos := [];
    ghost var a1 := if totalTokensEstimados > TokenBudget then [A1(totalTokensEstimados)] else [];
    ghost var a2 := if prompt != "" && !Contains(prompt, "@bancodetese") then [A2] else [];
    if totalTokensEstimados > TokenBudget {
      avisos := avisos + [A1(totalTokensEstimados)];
    }
    assert avisos == a1;
    if prompt != "" && !Contains(prompt, "@bancodetese") {
      avisos := avisos + [A2];
    }
    assert avisos == a1 + a2;
    var numSeparators := CountSeparators(prompt);
    if prompt != "" && numSeparators < 3 {
      avisos := avisos + [A3(numSeparators)];
    }
  }

  /** E1-E5 are each reported at most once: E1 exactly for a prompt shorter than 500 characters, the empty one included; E3, E4 and E5 exactly when a non-empty prompt lacks their marker. */
  lemma {:induction false} FixedErrorsOnce(prompt: string)
    ensures var errs := ErrorsOf(prompt);
      && Count(errs, E1) == (if |prompt| < MinLength then 1 else 0)
      && Count(errs, E2) <= 1
      && Count(errs, E3) == (if prompt != "" && !Contains(prompt, "GATE-1") then 1 else 0)
      && Count(errs, E4) == (if prompt != "" && !Contains(prompt, "Gate 0.5") then 1 else 0)
      && Count(errs, E5) == (if prompt != "" && !Contains(prompt, "art. 342") && !Contains(prompt, "art.342") then 1 else 0)
  {
    var missing := if prompt != "" then MissingTitles(ToUpper(prompt), TitulosDocs) else [];
    var e1, e2, e3, e4, e5 := prompt == "" || |prompt| < MinLength,
      prompt != "" && SiglasProibidasNosDocumentos(prompt),
      prompt != "" && !Contains(prompt, "GATE-1"),
      prompt != "" && !Contains(prompt, "Gate 0.5"),
      prompt != "" && !Contains(prompt, "art. 342") && !Contains(prompt, "art.342");
    assert ErrorsOf(prompt) == ErrorList(e1, e2, e3, e4, e5, missing);
    ErrorListCount(e1, e2, e3, e4, e5, missing, E1);
    ErrorListCount(e1, e2, e3, e4, e5, missing, E2);
    ErrorListCount(e1, e2, e3, e4, e5, missing, E3);
    ErrorListCount(e1, e2, e3, e4, e5, missing, E4);
    ErrorListCount(e1, e2, e3, e4, e5, missing, E5);
    CountOnlyTitles(missing, E1);
    CountOnlyTitles(missing, E2);
    CountOnlyTitles(missing, E3);
    CountOnlyTitles(missing, E4);
    CountOnlyTitles(missing, E5);
  }

  /** E6 is reported for a title exactly when the prompt is non-empty and its upper-cased text lacks that title. */
  lemma {:induction false} E6Iff(prompt: string, titulo: string)
    ensures E6(titulo) in ErrorsOf(prompt)
      <==> prompt != "" && titulo in TitulosDocs && !Contains(ToUpper(prompt), titulo)
  {
    var missing := if prompt != "" then MissingTitles(ToUpper(prompt), TitulosDocs) else [];
    var e1, e2, e3, e4, e5 := prompt == "" || |prompt| < MinLength,
      prompt != "" && SiglasProibidasNosDocumentos(prompt),
      prompt != "" && !Contains(prompt, "GATE-1"),
      prompt != "" && !Contains(prompt, "Gate 0.5"),
      prompt != "" && !Contains(prompt, "art. 342") && !Contains(prompt, "art.342");
    assert ErrorsOf(prompt) == ErrorList(e1, e2, e3, e4, e5, missing);
    ErrorListCount(e1, e2, e3, e4, e5, missing, E6(titulo));
    if prompt != "" {
      MissingTitlesIff(ToUpper(prompt), TitulosDocs, titulo);
    }
    CountIn(ErrorsOf(prompt), E6(titulo));
    CountIn(missing, E6(titulo));
  }

  /** `siglasProibidasNosDocumentos` holds exactly when "## DOC 1:" occurs and the blanked text from it on holds an acronym. */
  lemma SiglasIff(prompt: string)
    ensures SiglasProibidasNosDocumentos(prompt) <==>
      IndexOf(prompt, "## DOC 1:") >= 0 && HasSigla(BlankPlaceholders(prompt[IndexOf(prompt, "## DOC 1:")..]))
  {
    var start := IndexOf(prompt, "## DOC 1:");
    if start >= 0 {
      assert prompt[start..][..9] == "## DOC 1:";
    }
  }

  /**
   * E2 is reported exactly when the text from the first "## DOC 1:" on, with
   * bracketed placeholders blanked, holds one of the four acronyms as a whole
   * word; a prompt without "## DOC 1:" never gets E2.
   */
  lemma {:induction false} E2Iff(prompt: string)
    ensures E2 in ErrorsOf(prompt) <==>
      IndexOf(prompt, "## DOC 1:") >= 0 && HasSigla(BlankPlaceholders(prompt[IndexOf(prompt, "## DOC 1:")..]))
  {
    var missing := if prompt != "" then MissingTitles(ToUpper(prompt), TitulosDocs) else [];
    var e1, e2, e3, e4, e5 := prompt == "" || |prompt| < MinLength,
      prompt != "" && SiglasProibidasNosDocumentos(prompt),
      prompt != "" && !Contains(prompt, "GATE-1"),
      prompt != "" && !Contains(prompt, "Gate 0.5"),
      prompt != "" && !Contains(prompt, "art. 342") && !Contains(prompt, "art.342");
    assert ErrorsOf(prompt) == ErrorList(e1, e2, e3, e4, e5, missing);
    ErrorListCount(e1, e2, e3, e4, e5, missing, E2);
    CountOnlyTitles(missing, E2);
    CountIn(ErrorsOf(prompt), E2);
    SiglasIff(prompt);
  }

  /** A1 carries the estimate and is raised exactly above 16000 characters; A3 carries the count and is raised exactly when a non-empty prompt has fewer than three separators. */
  lemma WarningsIff(prompt: string)
    ensures A1(EstimateTokens(prompt)) in WarningsOf(prompt) <==> |prompt| > 4 * TokenBudget
    ensures (forall n :: A1(n) in WarningsOf(prompt) ==> n == EstimateTokens(prompt))
    ensures A3(CountSeparators(prompt)) in WarningsOf(prompt) <==> prompt != "" && CountSeparators(prompt) < 3
  {
  }

  /** Only a separator found from `i` on can be counted: none is counted exactly when "---" does not occur there. */
  lemma {:induction false} SeparatorsFromZeroIff(s: string, i: nat)
    ensures SeparatorsFrom(s, i) == 0 <==> forall j :: i <= j ==> !OccursAt(s, "---", j)
    decreases |s| - i
  {
    if i + 3 > |s| {
    } else if s[i..i + 3] == "---" {
      assert OccursAt(s, "---", i);
    } else {
      SeparatorsFromZeroIff(s, i + 1);
      assert !OccursAt(s, "---", i);
    }
  }

  /** `countSeparators` is 0 exactly when the prompt has no "---". */
  lemma CountSeparatorsZeroIff(prompt: string)
    ensures CountSeparators(prompt) == 0 <==> !Contains(prompt, "---")
  {
    SeparatorsFromZeroIff(prompt, 0);
    ContainsIff(prompt, "---");
  }

  /** `totalModulos` is positive exactly when some line starts with "## ". */
  lemma {:induction false} ModulesFromPositiveIff(s: string, i: nat)
    ensures ModulesFrom(s, i) > 0 <==> exists j :: i <= j < |s| && ModuleAt(s, j)
    decreases |s| - i
  {
    if i < |s| {
      ModulesFromPositiveIff(s, i + 1);
      if ModulesFrom(s, i + 1) > 0 {
        var j :| i + 1 <= j < |s| && ModuleAt(s, j);
        assert i <= j < |s|;
      }
      if exists j :: i <= j < |s| && ModuleAt(s, j) {
        var j :| i <= j < |s| && ModuleAt(s, j);
        assert j == i || i + 1 <= j;
      }
    }
  }

  /** Text without '[' has no placeholder to blank. */
  lemma {:induction false} BlankWithoutBrackets(s: string)
    requires '[' !in s
    ensures BlankPlaceholders(s) == s
    decreases |s|
  {
    if s != [] {
      assert '[' !in s[1..];
      BlankWithoutBrackets(s[1..]);
    }
  }

  /**
   * After blanking, every '[' is either an empty pair "[]" or has no ']'
   * anywhere after it: nothing written inside a placeholder survives to be
   * read as an acronym.
   */
  predicate PlaceholdersEmpty(t: string) {
    forall i :: 0 <= i < |t| && t[i] == '[' ==> (i + 1 < |t| && t[i + 1] == ']') || ']' !in t[i + 1..]
  }

  lemma {:induction false} BlankWithoutClose(s: string)
    requires ']' !in s
    ensures BlankPlaceholders(s) == s
    decreases |s|
  {
    if s != [] {
      assert ']' !in s[1..];
      if s[0] == '[' {
        assert !OccursAt(s, "]", IndexOf(s, "]"));
      }
      BlankWithoutClose(s[1..]);
    }
  }

  lemma {:induction false} BlankEmptiesPlaceholders(s: string)
    ensures PlaceholdersEmpty(BlankPlaceholders(s))
    decreases |s|
  {
    if s == [] {
    } else if s[0] == '[' && IndexOf(s, "]") > 0 {
      var j := IndexOf(s, "]");
      var rest := BlankPlaceholders(s[j + 1..]);
      BlankEmptiesPlaceholders(s[j + 1..]);
      var t := "[]" + rest;
      forall i | 0 <= i < |t| && t[i] == '['
        ensures (i + 1 < |t| && t[i + 1] == ']') || ']' !in t[i + 1..]
      {
        if i >= 2 {
          assert rest[i - 2] == '[';
          assert t[i + 1..] == rest[i - 1..];
        }
      }
    } else {
      var rest := BlankPlaceholders(s[1..]);
      BlankEmptiesPlaceholders(s[1..]);
      var t := [s[0]] + rest;
      if s[0] == '[' {
        assert IndexOf(s, "]") == -1;
        forall k | 1 <= k < |s| ensures s[k] != ']' {
          assert !OccursAt(s, "]", k);
        }
        assert ']' !in s[1..];
        BlankWithoutClose(s[1..]);
      }
      forall i | 0 <= i < |t| && t[i] == '['
        ensures (i + 1 < |t| && t[i + 1] == ']') || ']' !in t[i + 1..]
      {
        if i >= 1 {
          assert rest[i - 1] == '[';
          assert t[i + 1..] == rest[i..];
        }
      }
    }
  }
}
