/** The dialog that confirms finishing a ministry: the total, the ranking, and
    the banner for the most voted candidate. */
module ConfirmacaoFinalizacao {
  import opened Wrappers
  import opened VotacaoContext
  import opened Ranking

  /** `vencedor && vencedor.votos > 0`: the head of the ranking, when it has a vote. */
  function VencedorDestacado(cs: seq<Candidato>): (r: Option<Candidato>)
    ensures r.Some? ==> r == Vencedor(cs) && r.value.votos > 0
  {
    var ordenados := Ordenar(cs);
    if ordenados != [] && ordenados[0].votos > 0 then
      OrdenarPrimeiroEhVencedor(cs);
      Some(ordenados[0])
    else None
  }

  /** The banner is shown exactly when some candidate has a vote. */
  lemma VencedorDestacadoSeHaVotos(cs: seq<Candidato>)
    ensures VencedorDestacado(cs).None? <==> forall i :: 0 <= i < |cs| ==> cs[i].votos <= 0
  {
    if cs != [] {
      OrdenarPrimeiroEhVencedor(cs);
      var k := VencedorIndice(cs);
    }
  }

  /** The percentage in the banner lies between 0 and 100. */
  lemma PorcentagemDoVencedor(cs: seq<Candidato>)
    requires VotosValidos(cs) && VencedorDestacado(cs).Some?
    ensures 0 <= Porcentagem(VencedorDestacado(cs).value.votos, TotalVotos(cs)) <= 100
  {
    var w := VencedorDestacado(cs).value;
    var i :| 0 <= i < |cs| && cs[i] == w;
    PorcentagemDeCandidato(cs, i);
  }
}
