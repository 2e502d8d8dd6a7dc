/** The live vote counter: one row per candidate in ranking order, with its
    position, its percentage and the leader mark. */
module ContadorVotos {
  import opened Wrappers
  import opened VotacaoContext
  import opened Ranking

  /** A rendered row: the candidate, `Posição #n`, the percentage and `isLider`. */
  datatype Linha = Linha(candidato: Candidato, posicao: nat, porcentagem: int, lider: bool)

  /** The rows, in ranking order; the leader is the first row, when it has a vote. */
  function Linhas(cs: seq<Candidato>): (r: seq<Linha>)
    ensures |r| == |cs|
  {
    var ordenados := Ordenar(cs);
    var total := TotalVotos(cs);
    seq(|ordenados|, i requires 0 <= i < |ordenados| =>
      Linha(ordenados[i], i + 1, Porcentagem(ordenados[i].votos, total), i == 0 && ordenados[i].votos > 0))
  }

  /** The empty state "Nenhum candidato na votação" is shown instead of rows. */
  function MostraVazio(cs: seq<Candidato>): (b: bool)
    ensures b <==> cs == []
    ensures b <==> Linhas(cs) == []
  {
    |Ordenar(cs)| == 0
  }

  /** The candidates shown, row by row. */
  function CandidatosDasLinhas(l: seq<Linha>): (r: seq<Candidato>)
    ensures |r| == |l| && forall i :: 0 <= i < |l| ==> r[i] == l[i].candidato
  {
    seq(|l|, i requires 0 <= i < |l| => l[i].candidato)
  }

  /** The rows list every candidate as often as it occurs, by descending votes, numbered from 1. */
  lemma LinhasOrdenadas(cs: seq<Candidato>)
    ensures multiset(CandidatosDasLinhas(Linhas(cs))) == multiset(cs)
    ensures forall i, j :: 0 <= i < j < |cs| ==> Linhas(cs)[i].candidato.votos >= Linhas(cs)[j].candidato.votos
    ensures forall i :: 0 <= i < |cs| ==> Linhas(cs)[i].posicao == i + 1
  {
    var l := Linhas(cs);
    assert CandidatosDasLinhas(l) == Ordenar(cs);
    OrdenarDecrescente(cs);
  }

  /** At most one row is the leader: the first, when it has a vote; it shows the winner. */
  lemma UmLider(cs: seq<Candidato>)
    ensures forall i :: 0 <= i < |cs| && Linhas(cs)[i].lider ==> i == 0
    ensures cs != [] ==>
      (Linhas(cs)[0].lider <==> exists i :: 0 <= i < |cs| && cs[i].votos > 0) &&
      Linhas(cs)[0].candidato == Vencedor(cs).value
  {
    if cs != [] {
      OrdenarPrimeiroEhVencedor(cs);
      var k := VencedorIndice(cs);
    }
  }

  /** Every row shows its own candidate's share of the whole total. */
  lemma LinhasPorcentagem(cs: seq<Candidato>)
    ensures forall i :: 0 <= i < |cs| ==>
      Linhas(cs)[i].porcentagem == Porcentagem(Linhas(cs)[i].candidato.votos, TotalVotos(cs))
  {
  }

  /** Every row's percentage lies between 0 and 100. */
  lemma PorcentagensLimitadas(cs: seq<Candidato>, i: nat)
    requires VotosValidos(cs) && i < |cs|
    ensures 0 <= Linhas(cs)[i].porcentagem <= 100
  {
    var c := Ordenar(cs)[i];
    assert c in multiset(Ordenar(cs));
    var k :| 0 <= k < |cs| && cs[k] == c;
    PorcentagemDeCandidato(cs, k);
  }
}
