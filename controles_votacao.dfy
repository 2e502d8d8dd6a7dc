/** The voting controls: the session clock, the undo button and the menu that
    zeroes a candidate. The one-second interval that drives the clock is not
    part of this model: each of its ticks is a call of `Tick`. */
module ControlesVotacao {
  import opened Text
  import opened Sequencias
  import opened VotacaoContext
  import opened TelaPrincipalVotacao
  import opened Ranking

  /** `formatarTempo`: minutes and seconds, each padded to two digits. */
  function FormatarTempo(segundos: nat): (t: string)
    ensures |t| >= 5 && t[|t| - 3] == ':'
  {
    NatToStringCurto(segundos % 60);
    PadStart2(NatToString(segundos / 60)) + ":" + PadStart2(NatToString(segundos % 60))
  }

  /** The clock text reads back as the time: digits, a colon, then exactly two digits
      of seconds below 60; the minutes take at least two digits and are never cut. */
  lemma FormatarTempoLeitura(segundos: nat)
    ensures var t := FormatarTempo(segundos);
      |t| >= 5 && t[|t| - 3] == ':' &&
      (forall i :: 0 <= i < |t| && i != |t| - 3 ==> IsDigit(t[i])) &&
      ParseDigits(t[..|t| - 3]) == segundos / 60 &&
      ParseDigits(t[|t| - 2..]) == segundos % 60 < 60 &&
      60 * ParseDigits(t[..|t| - 3]) + ParseDigits(t[|t| - 2..]) == segundos
  {
    var m := PadStart2(NatToString(segundos / 60));
    var s := PadStart2(NatToString(segundos % 60));
    PadStart2NatToString(segundos / 60);
    PadStart2NatToString(segundos % 60);
    JuntarComDoisPontos(m, s);
  }

  /** `candidatosComVotos`: the candidates with at least one vote, in list order. */
  function CandidatosComVotos(cs: seq<Candidato>): (r: seq<Candidato>)
    ensures Subsequencia(r, cs)
    ensures forall c :: c in r <==> c in cs && c.votos > 0
  {
    Filtrar(cs, (c: Candidato) => c.votos > 0)
  }

  /** The zeroing panel is shown exactly when some vote has been cast. */
  lemma PainelZerarVisivel(cs: seq<Candidato>)
    requires VotosValidos(cs)
    ensures CandidatosComVotos(cs) != [] <==> TotalVotos(cs) > 0
  {
    var r := CandidatosComVotos(cs);
    if r != [] {
      assert r[0] in cs;
      var i :| 0 <= i < |cs| && cs[i] == r[0];
      VotosAteTotal(cs, i);
    } else {
      forall i | 0 <= i < |cs| ensures cs[i].votos == 0 {
        assert cs[i] in cs;
      }
      TotalZeroSemVotos(cs);
    }
  }

  /** The undo button is disabled iff the history is empty. */
  function DesfazerDesabilitado(historico: seq<string>): (b: bool)
    ensures b <==> |historico| == 0
  {
    historico == []
  }

  class Controles {
    const tela: TelaVotacao
    var pausado: bool
    var tempoSessao: nat
    var showZerarMenu: bool

    predicate Valid()
      reads this, tela, tela.ctx
    {
      tela.Valid()
    }

    constructor(tela: TelaVotacao)
      requires tela.Valid()
      ensures this.tela == tela && Valid()
      ensures !pausado && tempoSessao == 0 && !showZerarMenu
    {
      this.tela := tela;
      pausado := false;
      tempoSessao := 0;
      showZerarMenu := false;
    }

    /** One second of the interval: the clock runs only while not paused. */
    method Tick()
      modifies this
      ensures pausado == old(pausado) && showZerarMenu == old(showZerarMenu)
      ensures tempoSessao == if old(pausado) then old(tempoSessao) else old(tempoSessao) + 1
    {
      if !pausado {
        tempoSessao := tempoSessao + 1;
      }
    }

    method HandleTogglePause()
      modifies this
      ensures pausado == !old(pausado)
      ensures tempoSessao == old(tempoSessao) && showZerarMenu == old(showZerarMenu)
    {
      pausado := !pausado;
    }

    /** The button that opens and closes the zeroing menu. */
    method AlternarMenuZerar()
      modifies this
      ensures showZerarMenu == !old(showZerarMenu)
      ensures pausado == old(pausado) && tempoSessao == old(tempoSessao)
    {
      showZerarMenu := !showZerarMenu;
    }

    /** Zeroing is forwarded to the voting screen only when confirmed, and then the
        menu closes; without confirmation nothing changes. */
    method HandleZerarCandidato(id: string, confirmado: bool)
      requires Valid()
      modifies this, tela, tela.ctx
      ensures Valid()
      ensures pausado == old(pausado) && tempoSessao == old(tempoSessao)
      ensures !confirmado ==>
        showZerarMenu == old(showZerarMenu) && unchanged(tela) && unchanged(tela.ctx)
      ensures confirmado ==> !showZerarMenu
      ensures confirmado && TemCandidato(old(tela.ctx.candidatos), id) ==>
        tela.ctx.candidatos == ComVotosZerados(old(tela.ctx.candidatos), id) &&
        tela.historicoVotos == Filtrar(old(tela.historicoVotos), (y: string) => y != id)
      ensures confirmado && !TemCandidato(old(tela.ctx.candidatos), id) ==>
        tela.ctx.candidatos == old(tela.ctx.candidatos) && tela.historicoVotos == old(tela.historicoVotos)
      ensures tela.ctx.ministerioAtualId == old(tela.ctx.ministerioAtualId) && tela.ctx.etapaAtual == old(tela.ctx.etapaAtual)
      ensures tela.ctx.resultados == old(tela.ctx.resultados) && tela.ctx.inicioEtapa == old(tela.ctx.inicioEtapa)
      ensures tela.showConfirmacao == old(tela.showConfirmacao)
      ensures HistoricoConsistente(old(tela.historicoVotos), old(tela.ctx.candidatos)) ==>
        HistoricoConsistente(tela.historicoVotos, tela.ctx.candidatos)
    {
      if confirmado {
        tela.HandleZerarCandidato(id);
        showZerarMenu := false;
      }
    }
  }
}
