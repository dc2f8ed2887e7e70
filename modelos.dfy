/**
 * Template selection of lib/ai/modelos/index.ts: which of the three official
 * Revisor templates a document title asks for, the file each template lives
 * in, and the per-instance memo that keeps a template (or a failed read) once
 * it has been loaded. `readFile` on the templates directory is the `disk`
 * parameter: a file name it maps is read successfully, any other fails.
 */
module Modelos {
  import opened Wrappers
  import opened JsText

  datatype ModeloRevisor = RoteiroAdvogado | RoteiroPreposto | ParecerExecutivo

  /** `ROTEIRO_ADVOGADO_KEYS` */
  const RoteiroAdvogadoKeys: seq<string> := ["ROTEIRO_ADVOGADO", "ROTEIRO ADVOGADO"]
  /** `ROTEIRO_PREPOSTO_KEYS` */
  const RoteiroPrepostoKeys: seq<string> := ["ROTEIRO_PREPOSTO", "ROTEIRO PREPOSTO"]
  /** `PARECER_KEYS` */
  const ParecerKeys: seq<string> := ["PARECER_EXECUTIVO", "PARECER EXECUTIVO", "AVALIACAO_DEFESA", "AVALIACAO"]

  /** `k.replaceAll(" ", "_")` */
  function SpacesToUnderscores(k: string): (r: string)
    ensures |r| == |k|
  {
    seq(|k|, i requires 0 <= i < |k| => if k[i] == ' ' then '_' else k[i])
  }

  /** `keys.some((k) => upper.includes(k.replaceAll(" ", "_")))` */
  predicate SomeKeyIn(upper: string, keys: seq<string>) {
    keys != [] && (Contains(upper, SpacesToUnderscores(keys[0])) || SomeKeyIn(upper, keys[1..]))
  }

  /** `getModeloRevisorFromTitle`; `null` is `None`. */
  function FromTitle(title: string): (r: Option<ModeloRevisor>)
    ensures var u := ToUpper(title);
      && (r == Some(RoteiroAdvogado) <==> Contains(u, "ROTEIRO_ADVOGADO"))
      && (r == Some(RoteiroPreposto) <==> !Contains(u, "ROTEIRO_ADVOGADO") && Contains(u, "ROTEIRO_PREPOSTO"))
      && (r == Some(ParecerExecutivo) <==>
            !Contains(u, "ROTEIRO_ADVOGADO") && !Contains(u, "ROTEIRO_PREPOSTO")
            && (Contains(u, "PARECER_EXECUTIVO") || Contains(u, "AVALIACAO_DEFESA") || Contains(u, "AVALIACAO")))
  {
    var upper := ToUpper(title);
    EffectiveKeys(upper);
    if SomeKeyIn(upper, RoteiroAdvogadoKeys) then Some(RoteiroAdvogado)
    else if SomeKeyIn(upper, RoteiroPrepostoKeys) then Some(RoteiroPreposto)
    else if SomeKeyIn(upper, ParecerKeys) then Some(ParecerExecutivo)
    else None
  }

  /**
   * Once spaces are turned into underscores the spaced keys coincide with
   * their underscored twins, so each list matches exactly when one of its
   * underscored keys is a substring.
   */
  lemma EffectiveKeys(u: string)
    ensures SomeKeyIn(u, RoteiroAdvogadoKeys) <==> Contains(u, "ROTEIRO_ADVOGADO")
    ensures SomeKeyIn(u, RoteiroPrepostoKeys) <==> Contains(u, "ROTEIRO_PREPOSTO")
    ensures SomeKeyIn(u, ParecerKeys) <==>
      Contains(u, "PARECER_EXECUTIVO") || Contains(u, "AVALIACAO_DEFESA") || Contains(u, "AVALIACAO")
  {
    AdvogadoKeys(u);
    PrepostoKeys(u);
    ParecerKeysEffective(u);
  }

  lemma AdvogadoKeys(u: string)
    ensures SomeKeyIn(u, RoteiroAdvogadoKeys) <==> Contains(u, "ROTEIRO_ADVOGADO")
  {
    assert SpacesToUnderscores("ROTEIRO_ADVOGADO") == "ROTEIRO_ADVOGADO";
    assert SpacesToUnderscores("ROTEIRO ADVOGADO") == "ROTEIRO_ADVOGADO";
    var k := RoteiroAdvogadoKeys;
    assert k[0] == "ROTEIRO_ADVOGADO" && k[1..][0] == "ROTEIRO ADVOGADO" && k[1..][1..] == [];
    assert !SomeKeyIn(u, k[1..][1..]);
    assert SomeKeyIn(u, k[1..]) == Contains(u, SpacesToUnderscores(k[1..][0]));
  }

  lemma PrepostoKeys(u: string)
    ensures SomeKeyIn(u, RoteiroPrepostoKeys) <==> Contains(u, "ROTEIRO_PREPOSTO")
  {
    assert SpacesToUnderscores("ROTEIRO_PREPOSTO") == "ROTEIRO_PREPOSTO";
    assert SpacesToUnderscores("ROTEIRO PREPOSTO") == "ROTEIRO_PREPOSTO";
    var k := RoteiroPrepostoKeys;
    assert k[0] == "ROTEIRO_PREPOSTO" && k[1..][0] == "ROTEIRO PREPOSTO" && k[1..][1..] == [];
    assert !SomeKeyIn(u, k[1..][1..]);
    assert SomeKeyIn(u, k[1..]) == Contains(u, SpacesToUnderscores(k[1..][0]));
  }

  lemma ParecerKeysEffective(u: string)
    ensures SomeKeyIn(u, ParecerKeys) <==>
      Contains(u, "PARECER_EXECUTIVO") || Contains(u, "AVALIACAO_DEFESA") || Contains(u, "AVALIACAO")
  {
    assert SpacesToUnderscores("PARECER_EXECUTIVO") == "PARECER_EXECUTIVO";
    assert SpacesToUnderscores("PARECER EXECUTIVO") == "PARECER_EXECUTIVO";
    assert SpacesToUnderscores("AVALIACAO_DEFESA") == "AVALIACAO_DEFESA";
    assert SpacesToUnderscores("AVALIACAO") == "AVALIACAO";
    var k := ParecerKeys;
    assert k[0] == "PARECER_EXECUTIVO" && k[1..][0] == "PARECER EXECUTIVO";
    assert k[1..][1..][0] == "AVALIACAO_DEFESA" && k[1..][1..][1..][0] == "AVALIACAO" && k[1..][1..][1..][1..] == [];
    assert !SomeKeyIn(u, k[1..][1..][1..][1..]);
    assert SomeKeyIn(u, k[1..][1..][1..]) == Contains(u, SpacesToUnderscores(k[1..][1..][1..][0]));
    assert SomeKeyIn(u, k[1..][1..]) == (Contains(u, SpacesToUnderscores(k[1..][1..][0])) || SomeKeyIn(u, k[1..][1..][1..]));
    assert SomeKeyIn(u, k[1..]) == (Contains(u, SpacesToUnderscores(k[1..][0])) || SomeKeyIn(u, k[1..][1..]));
  }

  /** A title that names "AVALIACAO_DEFESA" already names "AVALIACAO": the longer key adds no match. */
  lemma AvaliacaoDefesaRedundant(u: string)
    ensures Contains(u, "AVALIACAO_DEFESA") ==> Contains(u, "AVALIACAO")
  {
    if Contains(u, "AVALIACAO_DEFESA") {
      var i := IndexOf(u, "AVALIACAO_DEFESA");
      assert u[i..i + 16][..9] == "AVALIACAO";
      assert OccursAt(u, "AVALIACAO", i);
      ContainsIff(u, "AVALIACAO");
    }
  }

  /** The roteiro keys win over the parecer keys: a title naming both picks the roteiro. */
  lemma AdvogadoFirst(title: string)
    requires Contains(ToUpper(title), "ROTEIRO_ADVOGADO")
    ensures FromTitle(title) == Some(RoteiroAdvogado)
  {
  }

  /** `MODELO_FILES[tipo]` */
  function ModeloFile(t: ModeloRevisor): string {
    match t
    case RoteiroAdvogado => "MODELO_ROTEIRO_ADVOGADO.txt"
    case RoteiroPreposto => "MODELO_ROTEIRO_PREPOSTO.txt"
    case ParecerExecutivo => "MODELO_PARECER_EXECUTIVO.txt"
  }

  /** Distinct template types never share a file, so one type's memo entry never stands for another's file. */
  lemma ModeloFilesDistinct(t: ModeloRevisor, t': ModeloRevisor)
    requires t != t'
    ensures ModeloFile(t) != ModeloFile(t')
  {
    assert ModeloFile(RoteiroAdvogado)[15] == 'A' && ModeloFile(RoteiroPreposto)[15] == 'P';
    assert ModeloFile(ParecerExecutivo)[7] == 'P' && ModeloFile(RoteiroAdvogado)[7] == 'R' && ModeloFile(RoteiroPreposto)[7] == 'R';
  }

  /** What `loadModeloRevisor(tipo)` returns given the memo and the directory. */
  function LoadResult(cache: map<ModeloRevisor, Option<string>>, t: ModeloRevisor, disk: map<string, string>): (r: Option<string>)
    ensures t in cache ==> r == cache[t]
    ensures t !in cache ==> (r.Some? <==> ModeloFile(t) in disk) && (r.Some? ==> r.value == disk[ModeloFile(t)])
  {
    if t in cache then cache[t]
    else if ModeloFile(t) in disk then Some(disk[ModeloFile(t)])
    else None
  }

  /** The memo after `loadModeloRevisor(tipo)`: the outcome is stored, a failure as `null`. */
  function CacheAfter(cache: map<ModeloRevisor, Option<string>>, t: ModeloRevisor, disk: map<string, string>): (c: map<ModeloRevisor, Option<string>>)
    ensures t in c && c[t] == LoadResult(cache, t, disk)
    ensures forall t' :: t' != t ==> (t' in c <==> t' in cache) && (t' in cache ==> c[t'] == cache[t'])
  {
    cache[t := LoadResult(cache, t, disk)]
  }

  /**
   * After one load of a type, every later load returns the same value without
   * touching the directory, whatever the directory then holds: a template
   * read once and a failed read alike are kept.
   */
  lemma {:induction false} LoadMemoised(cache: map<ModeloRevisor, Option<string>>, t: ModeloRevisor, disk: map<string, string>, later: map<string, string>)
    ensures var c := CacheAfter(cache, t, disk);
      t in c && LoadResult(c, t, later) == LoadResult(cache, t, disk) && CacheAfter(c, t, later) == c
  {
    var c := CacheAfter(cache, t, disk);
    assert c[t := c[t]] == c;
  }

  /** The module-level `templateCache`, with the names of the files read so far. */
  class TemplateLoader {
    var templateCache: map<ModeloRevisor, Option<string>>
    var filesRead: seq<string>

    constructor ()
      ensures templateCache == map[] && filesRead == []
    {
      templateCache := map[];
      filesRead := [];
    }

    /** `loadModeloRevisor` */
    method Load(t: ModeloRevisor, disk: map<string, string>) returns (r: Option<string>)
      modifies this
      ensures r == LoadResult(old(templateCache), t, disk)
      ensures templateCache == CacheAfter(old(templateCache), t, disk)
      ensures filesRead == if t in old(templateCache) then old(filesRead) else old(filesRead) + [ModeloFile(t)]
    {
      if t in templateCache {
        return templateCache[t];
      }
      var file := ModeloFile(t);
      filesRead := filesRead + [file];
      if file in disk {
        var content := disk[file];
        templateCache := templateCache[t := Some(content)];
        return Some(content);
      }
      templateCache := templateCache[t := None];
      return None;
    }
  }
}
