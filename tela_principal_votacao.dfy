/** The voting screen: it forwards votes to the provider and keeps its own
    history of the votes cast, so that the last one can be undone. */
module TelaPrincipalVotacao {
  import opened Wrappers
  import opened Sequencias
  import opened VotacaoContext

  /** Every id occurs in the history at most as often as the votes its candidate holds. */
  ghost predicate HistoricoConsistente(h: seq<string>, cs: seq<Candidato>)
  {
    forall x :: multiset(h)[x] <= VotosDe(cs, x)
  }

  lemma HistoricoVazioConsistente(cs: seq<Candidato>)
    requires VotosValidos(cs)
    ensures HistoricoConsistente([], cs)
  {
  }

  /** Voting for a listed candidate and recording the vote keeps the history consistent. */
  lemma VotarPreservaConsistencia(h: seq<string>, cs: seq<Candidato>, id: string)
    requires HistoricoConsistente(h, cs) && TemCandidato(cs, id)
    ensures HistoricoConsistente(h + [id], ComVotoAdicionado(cs, id))
  {
    forall x ensures multiset(h + [id])[x] <= VotosDe(ComVotoAdicionado(cs, id), x) {
      VotosAposAdicionarVoto(cs, id, x);
    }
  }

  /** With a consistent, non-empty history the last id names a candidate with a
      vote, so undoing always takes effect. */
  lemma DesfazerSempreEfetivo(h: seq<string>, cs: seq<Candidato>)
    requires HistoricoConsistente(h, cs) && h != []
    ensures var c := BuscarCandidato(cs, h[|h| - 1]); c.Some? && c.value.votos > 0
  {
    var u := h[|h| - 1];
    assert u in multiset(h);
    assert VotosDe(cs, u) >= 1;
  }

  /** Undoing the last vote and dropping it from the history keeps the history consistent. */
  lemma DesfazerPreservaConsistencia(h: seq<string>, cs: seq<Candidato>)
    requires HistoricoConsistente(h, cs) && h != []
    ensures HistoricoConsistente(h[..|h| - 1], ComVotoRemovido(cs, h[|h| - 1]))
  {
    var u := h[|h| - 1];
    var p := h[..|h| - 1];
    assert h == p + [u];
    DesfazerSempreEfetivo(h, cs);
    forall x ensures multiset(p)[x] <= VotosDe(ComVotoRemovido(cs, u), x) {
      VotosAposRemoverVoto(cs, u, x);
    }
  }

  /** Zeroing a candidate and removing its id from the history keeps the history consistent. */
  lemma ZerarPreservaConsistencia(h: seq<string>, cs: seq<Candidato>, id: string)
    requires HistoricoConsistente(h, cs)
    ensures HistoricoConsistente(Filtrar(h, (y: string) => y != id), ComVotosZerados(cs, id))
  {
    FiltrarMultiplicidade(h, (y: string) => y != id);
    forall x ensures multiset(Filtrar(h, (y: string) => y != id))[x] <= VotosDe(ComVotosZerados(cs, id), x) {
      VotosAposZerar(cs, id, x);
    }
  }

  /** A consistent, non-empty history means there is a vote, so finishing is never refused. */
  lemma HistoricoNaoVazioTemVotos(h: seq<string>, cs: seq<Candidato>)
    requires VotosValidos(cs) && HistoricoConsistente(h, cs) && h != []
    ensures TotalVotos(cs) > 0
  {
    DesfazerSempreEfetivo(h, cs);
    var k := IndiceCandidato(cs, h[|h| - 1]);
    TotalZeroSemVotos(cs);
    assert cs[k].votos != 0;
  }

  /** The alert shown when finishing with no vote. */
  const AlertaSemVotos: string := "Adicione pelo menos 1 voto antes de finalizar"

  class TelaVotacao {
    const ctx: Votacao
    var historicoVotos: seq<string>
    var showConfirmacao: bool

    predicate Valid()
      reads this, ctx
    {
      ctx.Valid()
    }

    /** The screen renders only for a selected ministry in stage 3. */
    function Visivel(): (b: bool)
      reads this, ctx
      ensures b ==> ctx.etapaAtual == 3
    {
      ctx.MinisterioAtual().Some? && ctx.etapaAtual == 3
    }

    constructor(ctx: Votacao)
      requires ctx.Valid()
      ensures this.ctx == ctx && Valid()
      ensures historicoVotos == [] && !showConfirmacao
    {
      this.ctx := ctx;
      historicoVotos := [];
      showConfirmacao := false;
    }

    method HandleAdicionarVoto(id: string)
      requires Valid()
      modifies this, ctx
      ensures Valid()
      ensures ctx.candidatos == ComVotoAdicionado(old(ctx.candidatos), id)
      ensures ctx.ministerioAtualId == old(ctx.ministerioAtualId) && ctx.etapaAtual == old(ctx.etapaAtual)
      ensures ctx.resultados == old(ctx.resultados) && ctx.inicioEtapa == old(ctx.inicioEtapa)
      ensures historicoVotos == old(historicoVotos) + [id] && showConfirmacao == old(showConfirmacao)
      ensures HistoricoConsistente(old(historicoVotos), old(ctx.candidatos)) && TemCandidato(old(ctx.candidatos), id) ==>
        HistoricoConsistente(historicoVotos, ctx.candidatos)
    {
      if HistoricoConsistente(historicoVotos, ctx.candidatos) && TemCandidato(ctx.candidatos, id) {
        VotarPreservaConsistencia(historicoVotos, ctx.candidatos, id);
      }
      ctx.AdicionarVoto(id);
      historicoVotos := historicoVotos + [id];
    }

    /** Undo: only when the last recorded id names a candidate that still has a vote. */
    method HandleDesfazerVoto()
      requires Valid()
      modifies this, ctx
      ensures Valid()
      ensures showConfirmacao == old(showConfirmacao)
      ensures ctx.ministerioAtualId == old(ctx.ministerioAtualId) && ctx.etapaAtual == old(ctx.etapaAtual)
      ensures ctx.resultados == old(ctx.resultados) && ctx.inicioEtapa == old(ctx.inicioEtapa)
      ensures old(historicoVotos) == [] ==> historicoVotos == [] && ctx.candidatos == old(ctx.candidatos)
      ensures old(historicoVotos) != [] ==>
        var u := old(historicoVotos)[|old(historicoVotos)| - 1];
        var c := BuscarCandidato(old(ctx.candidatos), u);
        if c.Some? && c.value.votos > 0 then
          ctx.candidatos == ComVotoRemovido(old(ctx.candidatos), u) &&
          historicoVotos == old(historicoVotos)[..|old(historicoVotos)| - 1]
        else
          ctx.candidatos == old(ctx.candidatos) && historicoVotos == old(historicoVotos)
      ensures HistoricoConsistente(old(historicoVotos), old(ctx.candidatos)) ==>
        HistoricoConsistente(historicoVotos, ctx.candidatos) &&
        (old(historicoVotos) != [] ==> |historicoVotos| == |old(historicoVotos)| - 1)
    {
      if |historicoVotos| == 0 {
        return;
      }
      var ultimo := historicoVotos[|historicoVotos| - 1];
      var candidato := BuscarCandidato(ctx.candidatos, ultimo);
      if candidato.Some? && candidato.value.votos > 0 {
        if HistoricoConsistente(historicoVotos, ctx.candidatos) {
          DesfazerPreservaConsistencia(historicoVotos, ctx.candidatos);
        }
        ctx.RemoverVoto(ultimo);
        historicoVotos := historicoVotos[..|historicoVotos| - 1];
      } else if HistoricoConsistente(historicoVotos, ctx.candidatos) {
        DesfazerSempreEfetivo(historicoVotos, ctx.candidatos);
      }
    }

    /** Zeroing a listed candidate also removes its id from the history; an unknown id is ignored. */
    method HandleZerarCandidato(id: string)
      requires Valid()
      modifies this, ctx
      ensures Valid()
      ensures showConfirmacao == old(showConfirmacao)
      ensures ctx.ministerioAtualId == old(ctx.ministerioAtualId) && ctx.etapaAtual == old(ctx.etapaAtual)
      ensures ctx.resultados == old(ctx.resultados) && ctx.inicioEtapa == old(ctx.inicioEtapa)
      ensures !TemCandidato(old(ctx.candidatos), id) ==>
        ctx.candidatos == old(ctx.candidatos) && historicoVotos == old(historicoVotos)
      ensures TemCandidato(old(ctx.candidatos), id) ==>
        ctx.candidatos == ComVotosZerados(old(ctx.candidatos), id) &&
        historicoVotos == Filtrar(old(historicoVotos), (y: string) => y != id)
      ensures HistoricoConsistente(old(historicoVotos), old(ctx.candidatos)) ==>
        HistoricoConsistente(historicoVotos, ctx.candidatos)
    {
      var candidato := BuscarCandidato(ctx.candidatos, id);
      if candidato.None? {
        return;
      }
      if HistoricoConsistente(historicoVotos, ctx.candidatos) {
        ZerarPreservaConsistencia(historicoVotos, ctx.candidatos, id);
      }
      ctx.ZerarVotosCandidato(id);
      historicoVotos := Filtrar(historicoVotos, (y: string) => y != id);
    }

    /** With no vote the alert is returned and nothing changes; otherwise the confirmation opens. */
    method HandleFinalizarVotacao() returns (alerta: Option<string>)
      requires Valid()
      modifies this
      ensures Valid()
      ensures historicoVotos == old(historicoVotos)
      ensures TotalVotos(ctx.candidatos) == 0 ==> alerta == Some(AlertaSemVotos) && showConfirmacao == old(showConfirmacao)
      ensures TotalVotos(ctx.candidatos) != 0 ==> alerta == None && showConfirmacao
    {
      var total := TotalVotos(ctx.candidatos);
      if total == 0 {
        return Some(AlertaSemVotos);
      }
      showConfirmacao := true;
      return None;
    }

    /** The confirmation's "continue voting" button. */
    method HandleContinuar()
      requires Valid()
      modifies this
      ensures Valid()
      ensures !showConfirmacao && historicoVotos == old(historicoVotos)
    {
      showConfirmacao := false;
    }

    /** Finishing stores the result, closes the confirmation and clears the history. */
    method HandleConfirmarFinalizacao(agora: int)
      requires Valid()
      modifies this, ctx
      ensures Valid()
      ensures old(ctx.MinisterioAtual()).None? ==> unchanged(ctx)
      ensures old(ctx.MinisterioAtual()).Some? ==>
        ctx.resultados == old(ctx.resultados) + [NovoResultado(old(ctx.MinisterioAtual()).value, old(ctx.candidatos), old(ctx.inicioEtapa), agora)] &&
        ctx.ministerioAtualId == None && ctx.etapaAtual == 1 && ctx.candidatos == [] &&
        ctx.inicioEtapa == (if old(ctx.etapaAtual) != 1 then agora else old(ctx.inicioEtapa))
      ensures !showConfirmacao && historicoVotos == []
      ensures HistoricoConsistente(historicoVotos, ctx.candidatos)
    {
      ctx.FinalizarMinisterio(agora);
      showConfirmacao := false;
      historicoVotos := [];
    }
  }
}
