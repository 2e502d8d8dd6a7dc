/** The explanation dialog shown at stage 1: the reading countdown, the set of
    ministries already explained (kept in the browser's storage, here a field
    whose first value is a parameter), the confirmation step and the two exits,
    forward to the nominations and back to the ministry list. */
module ComponenteExplicacao {
  import opened Wrappers
  import opened Text
  import opened Ministerios
  import opened VotacaoContext

  /** `formatarTempo`: whole minutes, unpadded, then the seconds padded to two digits.
      `Math.floor(s / 60)` is Dafny's division by a positive divisor. */
  function FormatarTempo(segundos: int): (t: string)
    ensures segundos >= 0 ==> |t| >= 4 && t[|t| - 3] == ':'
  {
    IntToStringCurto(JsRemainder(segundos, 60));
    IntToString(segundos / 60) + ":" + PadStart2(IntToString(JsRemainder(segundos, 60)))
  }

  /** For a time that is not negative the text is the plain minute count, a colon and
      exactly two digits of seconds below 60, and it reads back as the time. */
  lemma FormatarTempoLeitura(segundos: nat)
    ensures var t := FormatarTempo(segundos);
      var k := |NatToString(segundos / 60)|;
      |t| == k + 3 && t[k] == ':' && t[..k] == NatToString(segundos / 60) &&
      (forall i :: 0 <= i < |t| && i != k ==> IsDigit(t[i])) &&
      ParseDigits(t[..k]) == segundos / 60 && ParseDigits(t[k + 1..]) == segundos % 60 < 60 &&
      60 * ParseDigits(t[..k]) + ParseDigits(t[k + 1..]) == segundos
  {
    var m := NatToString(segundos / 60);
    var s := PadStart2(NatToString(segundos % 60));
    ParseNatToString(segundos / 60);
    PadStart2NatToString(segundos % 60);
    JuntarComDoisPontos(m, s);
  }

  /** The minutes are not padded: a time under ten minutes starts with a single digit. */
  lemma FormatarTempoSemZeroAEsquerda(segundos: nat)
    requires 60 <= segundos < 600
    ensures FormatarTempo(segundos)[1] == ':'
  {
    FormatarTempoLeitura(segundos);
  }

  /** `getCategoriaName`: the display name of the three catalogue categories; any
      other text is shown unchanged. */
  function NomeCategoria(categoria: string): (r: string)
    ensures categoria == "lideranca" ==> r == "Liderança"
    ensures categoria == "ministerio" ==> r == "Ministério"
    ensures categoria == "clube" ==> r == "Clube"
    ensures categoria !in {"lideranca", "ministerio", "clube"} ==> r == categoria
  {
    if categoria == "lideranca" then "Liderança"
    else if categoria == "ministerio" then "Ministério"
    else if categoria == "clube" then "Clube"
    else categoria
  }

  /** Different categories of the data model get different display names, and only a
      custom category is shown by its code. */
  lemma NomeCategoriaDistingue(c: Categoria, d: Categoria)
    ensures NomeCategoria(CategoriaTexto(c)) == NomeCategoria(CategoriaTexto(d)) <==> c == d
    ensures NomeCategoria(CategoriaTexto(c)) == CategoriaTexto(c) <==> c == Personalizado
  {
  }

  /** The explained set after advancing from `atual`: the current ministry is added. */
  function MarcarExplicado(explicados: set<string>, atual: Option<Ministerio>): (r: set<string>)
    ensures explicados <= r
    ensures atual.Some? ==> atual.value.id in r
    ensures forall x :: x in r && x !in explicados ==> atual.Some? && x == atual.value.id
  {
    if atual.Some? then explicados + {atual.value.id} else explicados
  }

  /** Marking the same ministry twice changes nothing more. */
  lemma MarcarExplicadoIdempotente(explicados: set<string>, atual: Option<Ministerio>)
    ensures MarcarExplicado(MarcarExplicado(explicados, atual), atual) == MarcarExplicado(explicados, atual)
  {
  }

  /** `handleIniciarIndicacoes` skips the confirmation iff the dialog advances on its own
      or the current ministry was explained before. */
  function PulaConfirmacao(autoAvancar: bool, explicados: set<string>, atual: Option<Ministerio>): (b: bool)
    ensures b <==> autoAvancar || (atual.Some? && atual.value.id in explicados)
  {
    autoAvancar || (atual.Some? && atual.value.id in explicados)
  }

  /** Once a ministry has been advanced from, starting it again asks no confirmation. */
  lemma ExplicadoPulaConfirmacao(autoAvancar: bool, explicados: set<string>, m: Ministerio)
    ensures PulaConfirmacao(autoAvancar, MarcarExplicado(explicados, Some(m)), Some(m))
  {
  }

  class Explicacao {
    const ctx: Votacao
    const tempoLeitura: int
    const autoAvancar: bool
    var isModalOpen: bool
    var tempoRestante: int
    var confirmacaoAberta: bool
    var ministeriosExplicados: set<string>

    predicate Valid()
      reads this, ctx
    {
      ctx.Valid()
    }

    /** `salvos` is the set read back from storage when the component mounts. */
    constructor(ctx: Votacao, tempoLeitura: int, autoAvancar: bool, salvos: set<string>)
      requires ctx.Valid()
      ensures this.ctx == ctx && this.tempoLeitura == tempoLeitura && this.autoAvancar == autoAvancar && Valid()
      ensures !isModalOpen && tempoRestante == tempoLeitura && !confirmacaoAberta
      ensures ministeriosExplicados == salvos
    {
      this.ctx := ctx;
      this.tempoLeitura := tempoLeitura;
      this.autoAvancar := autoAvancar;
      isModalOpen := false;
      tempoRestante := tempoLeitura;
      confirmacaoAberta := false;
      ministeriosExplicados := salvos;
    }

    /** The two effects on the dialog: it is open iff a ministry is current at stage 1,
        and opening it restarts the countdown. */
    method SincronizarModal()
      requires Valid()
      modifies this
      ensures Valid()
      ensures isModalOpen <==> ctx.MinisterioAtual().Some? && ctx.etapaAtual == 1
      ensures tempoRestante == if isModalOpen && !old(isModalOpen) then tempoLeitura else old(tempoRestante)
      ensures confirmacaoAberta == old(confirmacaoAberta) && ministeriosExplicados == old(ministeriosExplicados)
    {
      var abrir := ctx.MinisterioAtual().Some? && ctx.etapaAtual == 1;
      if abrir && !isModalOpen {
        tempoRestante := tempoLeitura;
      }
      isModalOpen := abrir;
    }

    /** `handleProximaEtapa`: marks the current ministry as explained, runs
        `proximaEtapa` and closes the dialog and the confirmation. */
    method HandleProximaEtapa(agora: int)
      requires Valid()
      modifies this, ctx
      ensures Valid()
      ensures ministeriosExplicados == MarcarExplicado(old(ministeriosExplicados), old(ctx.MinisterioAtual()))
      ensures !isModalOpen && !confirmacaoAberta && tempoRestante == old(tempoRestante)
      ensures old(ctx.etapaAtual) == 3 ==> unchanged(ctx)
      ensures old(ctx.etapaAtual) < 3 ==>
        ctx.etapaAtual == old(ctx.etapaAtual) + 1 && ctx.inicioEtapa == agora &&
        ctx.ministerioAtualId == old(ctx.ministerioAtualId) && ctx.candidatos == old(ctx.candidatos) &&
        ctx.resultados == old(ctx.resultados)
    {
      var atual := ctx.MinisterioAtual();
      if atual.Some? {
        ministeriosExplicados := ministeriosExplicados + {atual.value.id};
      }
      ctx.ProximaEtapa(agora);
      isModalOpen := false;
      confirmacaoAberta := false;
    }

    /** `handleVoltar`: cancels the ministry through `cancelarMinisterio` and closes the dialog. */
    method HandleVoltar(agora: int)
      requires Valid()
      modifies this, ctx
      ensures Valid()
      ensures ctx.ministerioAtualId == None && ctx.etapaAtual == 1 && ctx.candidatos == []
      ensures ctx.resultados == old(ctx.resultados)
      ensures ctx.inicioEtapa == if old(ctx.etapaAtual) != 1 then agora else old(ctx.inicioEtapa)
      ensures !isModalOpen && confirmacaoAberta == old(confirmacaoAberta)
      ensures tempoRestante == old(tempoRestante) && ministeriosExplicados == old(ministeriosExplicados)
    {
      ctx.CancelarMinisterio(agora);
      isModalOpen := false;
    }

    /** `handleIniciarIndicacoes`: advances at once when `PulaConfirmacao` holds, otherwise
        opens the confirmation and changes nothing else. */
    method HandleIniciarIndicacoes(agora: int)
      requires Valid()
      modifies this, ctx
      ensures Valid()
      ensures PulaConfirmacao(autoAvancar, old(ministeriosExplicados), old(ctx.MinisterioAtual())) ==>
        !confirmacaoAberta && !isModalOpen &&
        ministeriosExplicados == MarcarExplicado(old(ministeriosExplicados), old(ctx.MinisterioAtual())) &&
        ctx.etapaAtual == (if old(ctx.etapaAtual) < 3 then old(ctx.etapaAtual) + 1 else 3) &&
        ctx.ministerioAtualId == old(ctx.ministerioAtualId) && ctx.candidatos == old(ctx.candidatos) &&
        ctx.resultados == old(ctx.resultados) &&
        ctx.inicioEtapa == (if old(ctx.etapaAtual) < 3 then agora else old(ctx.inicioEtapa))
      ensures !PulaConfirmacao(autoAvancar, old(ministeriosExplicados), old(ctx.MinisterioAtual())) ==>
        confirmacaoAberta && unchanged(ctx) && isModalOpen == old(isModalOpen) &&
        ministeriosExplicados == old(ministeriosExplicados)
      ensures tempoRestante == old(tempoRestante)
    {
      if PulaConfirmacao(autoAvancar, ministeriosExplicados, ctx.MinisterioAtual()) {
        HandleProximaEtapa(agora);
      } else {
        confirmacaoAberta := true;
      }
    }

    /** The confirmation's "back" button. */
    method FecharConfirmacao()
      modifies this
      ensures !confirmacaoAberta && isModalOpen == old(isModalOpen)
      ensures tempoRestante == old(tempoRestante) && ministeriosExplicados == old(ministeriosExplicados)
    {
      confirmacaoAberta := false;
    }

    /** One second of the reading countdown: it runs only while the dialog is open in
        automatic mode, and once it reaches zero the dialog advances. */
    method TickLeitura(agora: int)
      requires Valid()
      modifies this, ctx
      ensures Valid()
      ensures !old(isModalOpen) || !autoAvancar ==> unchanged(this) && unchanged(ctx)
      ensures old(isModalOpen) && autoAvancar && old(tempoRestante) > 0 ==>
        tempoRestante == old(tempoRestante) - 1 && unchanged(ctx) && isModalOpen &&
        confirmacaoAberta == old(confirmacaoAberta) && ministeriosExplicados == old(ministeriosExplicados)
      ensures old(isModalOpen) && autoAvancar && old(tempoRestante) <= 0 ==>
        !isModalOpen && !confirmacaoAberta && tempoRestante == old(tempoRestante) &&
        ministeriosExplicados == MarcarExplicado(old(ministeriosExplicados), old(ctx.MinisterioAtual())) &&
        ctx.etapaAtual == (if old(ctx.etapaAtual) < 3 then old(ctx.etapaAtual) + 1 else 3) &&
        ctx.ministerioAtualId == old(ctx.ministerioAtualId) && ctx.candidatos == old(ctx.candidatos) &&
        ctx.resultados == old(ctx.resultados) &&
        ctx.inicioEtapa == (if old(ctx.etapaAtual) < 3 then agora else old(ctx.inicioEtapa))
    {
      if !isModalOpen || !autoAvancar {
        return;
      }
      if tempoRestante <= 0 {
        HandleProximaEtapa(agora);
      } else {
        tempoRestante := tempoRestante - 1;
      }
    }
  }
}
