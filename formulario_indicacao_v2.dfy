/** The second version of the nomination form: one suggestion list (the names of
    earlier ministries), the seat count taken from the ministry's own seats, and
    no confirmation when the counts differ. Name validation and suggestion
    filtering are those of `FormularioIndicacao`, which this version repeats. */
module FormularioIndicacaoV2 {
  import opened Wrappers
  import opened Text
  import opened Sequencias
  import opened Ministerios
  import opened VotacaoContext
  import opened FormularioIndicacao

  /** `numeroVagas`: the ministry's number of seats. */
  function NumeroVagas(m: Ministerio): (n: nat)
    ensures n == |m.cargos|
  {
    |m.cargos|
  }

  /** Every catalogue ministry has at least one seat, so with no candidate the
      shortfall warning is hidden and "enough candidates" is never shown. */
  lemma NumeroVagasCatalogo(i: nat)
    requires i < |Catalogo|
    ensures NumeroVagas(Catalogo[i]) >= 1
    ensures !AvisoPoucosCandidatos(0, NumeroVagas(Catalogo[i])) && !CandidatosSuficientes(0, NumeroVagas(Catalogo[i]))
  {
    CatalogoCargosNaoVazios();
  }

  class FormularioV2 {
    const ctx: Votacao
    var nomeInput: string
    var erro: string
    var sugestoes: seq<string>

    predicate Valid()
      reads this, ctx
    {
      ctx.Valid()
    }

    constructor(ctx: Votacao)
      requires ctx.Valid()
      ensures this.ctx == ctx && Valid()
      ensures nomeInput == "" && erro == "" && sugestoes == []
    {
      this.ctx := ctx;
      nomeInput := "";
      erro := "";
      sugestoes := [];
    }

    /** The effect that collects the earlier names when a ministry is current. */
    method CarregarSugestoes()
      requires Valid()
      modifies this
      ensures Valid() && nomeInput == old(nomeInput) && erro == old(erro)
      ensures ctx.MinisterioAtual().None? ==> sugestoes == old(sugestoes)
      ensures ctx.MinisterioAtual().Some? ==> sugestoes == SemRepetidos(NomesDosResultados(ctx.resultados))
    {
      if ctx.MinisterioAtual().Some? {
        sugestoes := NomesDoHistorico(ctx.resultados);
      }
    }

    /** `sugestoesDisponiveis`: the suggestions not yet among the candidates, in order. */
    function SugestoesDisponiveis(): (r: seq<string>)
      reads this, ctx
      ensures Subsequencia(r, sugestoes)
      ensures forall x :: x in r <==> x in sugestoes && !JaAdicionado(ctx.candidatos, x)
    {
      Disponiveis(sugestoes, ctx.candidatos)
    }

    method AlterarNome(v: string)
      modifies this
      ensures nomeInput == v && erro == "" && sugestoes == old(sugestoes)
    {
      nomeInput := v;
      erro := "";
    }

    method HandleSugestaoClick(nome: string)
      modifies this
      ensures nomeInput == nome && erro == old(erro) && sugestoes == old(sugestoes)
    {
      nomeInput := nome;
    }

    /** The add button is enabled iff the field is not blank. */
    function PodeAdicionar(): (b: bool)
      reads this
      ensures b <==> Trim(nomeInput) != []
    {
      !Blank(nomeInput)
    }

    /** The advance button is enabled iff there is a candidate. */
    function PodeAvancar(): (b: bool)
      reads this, ctx
      ensures b <==> ctx.candidatos != []
    {
      |ctx.candidatos| != 0
    }

    /** Forwards `nome.trim()` of a non-blank name (the context trims it again, which
        changes nothing), so the list gains the trimmed name with no votes; clears the field. */
    method AdicionarValidado(nome: string, agora: nat, sufixo: string)
      requires Valid() && !Blank(nome)
      modifies this, ctx
      ensures Valid() && sugestoes == old(sugestoes)
      ensures ctx.candidatos == old(ctx.candidatos) + [Candidato(IdNovoCandidato(agora, sufixo), Trim(nome), 0)]
      ensures ctx.ministerioAtualId == old(ctx.ministerioAtualId) && ctx.etapaAtual == old(ctx.etapaAtual)
      ensures ctx.resultados == old(ctx.resultados) && ctx.inicioEtapa == old(ctx.inicioEtapa)
      ensures nomeInput == "" && erro == ""
    {
      TrimIdempotent(nome);
      ctx.AdicionarCandidato(Trim(nome), agora, sufixo);
      nomeInput := "";
      erro := "";
    }

    /** Adds the trimmed name when it is valid, then clears the field; otherwise shows the message. */
    method HandleAdicionar(agora: nat, sufixo: string)
      requires Valid()
      modifies this, ctx
      ensures Valid() && sugestoes == old(sugestoes)
      ensures ValidarNome(old(nomeInput), old(ctx.candidatos)).Some? ==>
        unchanged(ctx) && nomeInput == old(nomeInput) && erro == ValidarNome(old(nomeInput), old(ctx.candidatos)).value
      ensures ValidarNome(old(nomeInput), old(ctx.candidatos)).None? ==>
        ctx.candidatos == old(ctx.candidatos) + [Candidato(IdNovoCandidato(agora, sufixo), Trim(old(nomeInput)), 0)] &&
        ctx.ministerioAtualId == old(ctx.ministerioAtualId) && ctx.etapaAtual == old(ctx.etapaAtual) &&
        ctx.resultados == old(ctx.resultados) && ctx.inicioEtapa == old(ctx.inicioEtapa) &&
        nomeInput == "" && erro == ""
      ensures NomesUnicosSemCaixa(old(ctx.candidatos)) ==> NomesUnicosSemCaixa(ctx.candidatos)
    {
      var erroValidacao := ValidarNome(nomeInput, ctx.candidatos);
      if erroValidacao.Some? {
        erro := erroValidacao.value;
      } else {
        if NomesUnicosSemCaixa(ctx.candidatos) {
          AdicionarValidoPreservaUnicidade(ctx.candidatos, nomeInput, IdNovoCandidato(agora, sufixo));
        }
        AdicionarValidado(nomeInput, agora, sufixo);
      }
    }

    /** Moving to the voting stage is refused with no candidate; otherwise `proximaEtapa` runs. */
    method HandleProximaEtapa(agora: int)
      requires Valid()
      modifies this, ctx
      ensures Valid() && nomeInput == old(nomeInput) && sugestoes == old(sugestoes)
      ensures old(ctx.candidatos) == [] ==> erro == MsgSemCandidatos && unchanged(ctx)
      ensures old(ctx.candidatos) != [] ==>
        erro == old(erro) && ctx.candidatos == old(ctx.candidatos) && ctx.resultados == old(ctx.resultados) &&
        ctx.ministerioAtualId == old(ctx.ministerioAtualId) &&
        ctx.etapaAtual == (if old(ctx.etapaAtual) < 3 then old(ctx.etapaAtual) + 1 else 3) &&
        ctx.inicioEtapa == (if old(ctx.etapaAtual) < 3 then agora else old(ctx.inicioEtapa))
    {
      if |ctx.candidatos| == 0 {
        erro := MsgSemCandidatos;
        return;
      }
      ctx.ProximaEtapa(agora);
    }

    /** "Back" returns to the explanation stage through `voltarEtapa`. */
    method HandleVoltarEtapa(agora: int)
      requires Valid()
      modifies ctx
      ensures Valid()
      ensures ctx.resultados == old(ctx.resultados)
      ensures old(ctx.etapaAtual) > 1 ==>
        ctx.etapaAtual == old(ctx.etapaAtual) - 1 && ctx.candidatos == old(ctx.candidatos) &&
        ctx.ministerioAtualId == old(ctx.ministerioAtualId) && ctx.inicioEtapa == agora
      ensures old(ctx.etapaAtual) == 1 ==>
        ctx.ministerioAtualId == None && ctx.etapaAtual == 1 && ctx.candidatos == [] &&
        ctx.inicioEtapa == old(ctx.inicioEtapa)
    {
      ctx.VoltarEtapa(agora);
    }
  }
}
