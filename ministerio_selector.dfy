/** The ministry picker: the finished/pending status of each ministry, the status
    filter, the options handed to the select box and the selection handler. */
module MinisterioSelector {
  import opened Wrappers
  import opened Sequencias
  import opened Ministerios
  import opened VotacaoContext

  datatype FiltroStatus = Todos | Pendentes | Finalizados

  /** `isMinisterioFinalizado`: some result was recorded for that ministry. */
  predicate Finalizado(rs: seq<Resultado>, id: string)
  {
    exists i :: 0 <= i < |rs| && rs[i].ministerioId == id
  }

  /** `ministeriosFiltrados`: all, only the finished, or only the pending ministries, in list order. */
  function FiltrarPorStatus(ms: seq<Ministerio>, rs: seq<Resultado>, f: FiltroStatus): (r: seq<Ministerio>)
    ensures f == Todos ==> r == ms
    ensures Subsequencia(r, ms)
    ensures f == Finalizados ==> forall m :: m in r <==> m in ms && Finalizado(rs, m.id)
    ensures f == Pendentes ==> forall m :: m in r <==> m in ms && !Finalizado(rs, m.id)
    ensures f != Todos ==> forall m :: multiset(r)[m] == if Finalizado(rs, m.id) == (f == Finalizados) then multiset(ms)[m] else 0
  {
    match f
    case Todos =>
      assert Filtrar(ms, (m: Ministerio) => true) == ms;
      ms
    case Finalizados =>
      var p := (m: Ministerio) => Finalizado(rs, m.id);
      FiltrarMultiplicidade(ms, p);
      Filtrar(ms, p)
    case Pendentes =>
      var p := (m: Ministerio) => !Finalizado(rs, m.id);
      FiltrarMultiplicidade(ms, p);
      Filtrar(ms, p)
  }

  /** The finished and the pending lists split the whole list: no ministry is in
      both, and together they hold each ministry as often as the list does. */
  lemma StatusParticao(ms: seq<Ministerio>, rs: seq<Resultado>)
    ensures multiset(FiltrarPorStatus(ms, rs, Finalizados)) + multiset(FiltrarPorStatus(ms, rs, Pendentes)) == multiset(ms)
    ensures forall m :: m in FiltrarPorStatus(ms, rs, Finalizados) ==> m !in FiltrarPorStatus(ms, rs, Pendentes)
    ensures |FiltrarPorStatus(ms, rs, Finalizados)| + |FiltrarPorStatus(ms, rs, Pendentes)| == |ms|
  {
    var fin := FiltrarPorStatus(ms, rs, Finalizados);
    var pen := FiltrarPorStatus(ms, rs, Pendentes);
    assert multiset(fin) + multiset(pen) == multiset(ms) by {
      forall m ensures (multiset(fin) + multiset(pen))[m] == multiset(ms)[m] {
      }
    }
    assert |multiset(fin) + multiset(pen)| == |multiset(ms)|;
  }

  /** An option of the select box: `value` (the id), `label` (the name), the ministry and its status. */
  datatype Opcao = Opcao(valor: string, rotulo: string, ministerio: Ministerio, finalizado: bool)

  /** `opcoes`: one option per filtered ministry, in order. */
  function Opcoes(ms: seq<Ministerio>, rs: seq<Resultado>, f: FiltroStatus): (r: seq<Opcao>)
    ensures |r| == |FiltrarPorStatus(ms, rs, f)|
    ensures forall i :: 0 <= i < |r| ==>
      var m := FiltrarPorStatus(ms, rs, f)[i];
      r[i] == Opcao(m.id, m.nome, m, Finalizado(rs, m.id))
  {
    var fs := FiltrarPorStatus(ms, rs, f);
    seq(|fs|, i requires 0 <= i < |fs| => Opcao(fs[i].id, fs[i].nome, fs[i], Finalizado(rs, fs[i].id)))
  }

  /** In the finished view every option is marked finished, in the pending view none is. */
  lemma OpcoesMarcadas(ms: seq<Ministerio>, rs: seq<Resultado>, i: nat)
    ensures i < |Opcoes(ms, rs, Finalizados)| ==> Opcoes(ms, rs, Finalizados)[i].finalizado
    ensures i < |Opcoes(ms, rs, Pendentes)| ==> !Opcoes(ms, rs, Pendentes)[i].finalizado
  {
    var fin := FiltrarPorStatus(ms, rs, Finalizados);
    var pen := FiltrarPorStatus(ms, rs, Pendentes);
    if i < |fin| { assert fin[i] in fin; }
    if i < |pen| { assert pen[i] in pen; }
  }

  /** `valorAtual`: the option of the current ministry, if it is among the options. */
  function ValorAtual(opcoes: seq<Opcao>, atual: Option<Ministerio>): (r: Option<Opcao>)
    ensures atual.None? ==> r.None?
    ensures r.Some? ==> r.value in opcoes && r.value.valor == atual.value.id
    ensures atual.Some? && r.None? ==> forall i :: 0 <= i < |opcoes| ==> opcoes[i].valor != atual.value.id
    ensures r.Some? ==> exists k :: (0 <= k < |opcoes| && opcoes[k] == r.value &&
      forall j :: 0 <= j < k ==> opcoes[j].valor != atual.value.id)
    decreases |opcoes|
  {
    if atual.None? || opcoes == [] then None
    else if opcoes[0].valor == atual.value.id then Some(opcoes[0])
    else
      var r := ValorAtual(opcoes[1..], atual);
      assert forall i :: 1 <= i < |opcoes| ==> opcoes[i] == opcoes[1..][i - 1];
      r
  }

  /** The "Pendentes (n)" count: the ministries with no result. */
  function ContagemPendentes(ms: seq<Ministerio>, rs: seq<Resultado>): (n: nat)
  {
    |FiltrarPorStatus(ms, rs, Pendentes)|
  }

  /** The pending count is the list size minus the number of finished ministries. */
  lemma ContagemPendentesComplemento(ms: seq<Ministerio>, rs: seq<Resultado>)
    ensures ContagemPendentes(ms, rs) == |ms| - |FiltrarPorStatus(ms, rs, Finalizados)|
    ensures rs == [] ==> ContagemPendentes(ms, rs) == |ms|
  {
    StatusParticao(ms, rs);
    if rs == [] {
      assert FiltrarPorStatus(ms, rs, Pendentes) == ms;
    }
  }

  function IdDoMinisterio(m: Ministerio): string
  {
    m.id
  }

  /** The "Finalizados (n)" button counts results, not finished ministries: when every
      result is for the same ministry (chosen again after it was finished, which the
      picker allows), the finished view lists that one ministry whatever `|rs|` is. */
  lemma ContagemFinalizadosContaResultados(ms: seq<Ministerio>, m: Ministerio, rs: seq<Resultado>)
    requires ChavesDistintas(ms, IdDoMinisterio) && m in ms
    requires rs != [] && forall i :: 0 <= i < |rs| ==> rs[i].ministerioId == m.id
    ensures FiltrarPorStatus(ms, rs, Finalizados) == [m]
  {
    var fin := FiltrarPorStatus(ms, rs, Finalizados);
    assert Finalizado(rs, m.id) by { assert rs[0].ministerioId == m.id; }
    forall x | x in fin ensures x == m {
      var a :| 0 <= a < |ms| && ms[a] == x;
      var b :| 0 <= b < |ms| && ms[b] == m;
      assert IdDoMinisterio(ms[a]) == IdDoMinisterio(ms[b]);
    }
    ChavesDistintasMultiplicidade(ms, IdDoMinisterio, m);
    assert multiset(fin) == multiset{m} by {
      forall x ensures multiset(fin)[x] == multiset{m}[x] {
        if x != m {
          assert x !in fin;
        }
      }
    }
    assert |fin| == 1;
    assert fin[0] in multiset(fin);
  }

  /** `handleSelecao`: clearing the box does nothing; an option selects its ministry,
      finished or not. */
  method HandleSelecao(ctx: Votacao, opcao: Option<Opcao>, agora: int)
    requires ctx.Valid()
    modifies ctx
    ensures ctx.Valid()
    ensures opcao.None? ==> unchanged(ctx)
    ensures opcao.Some? && Buscar(ctx.ministerios, opcao.value.valor).Some? ==>
      ctx.ministerioAtualId == Some(opcao.value.valor) && ctx.etapaAtual == 1 && ctx.candidatos == [] &&
      ctx.resultados == old(ctx.resultados) && ctx.inicioEtapa == agora
    ensures opcao.Some? && Buscar(ctx.ministerios, opcao.value.valor).None? ==> unchanged(ctx)
  {
    if opcao.Some? {
      ctx.SelecionarMinisterio(opcao.value.valor, agora);
    }
  }
}
