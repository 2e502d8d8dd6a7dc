/** The voting state shared by every screen: the ministry under election, the
    stage (1 explanation, 2 nominations, 3 voting), the candidates with their
    vote counts, the list of finished elections and the start time of the stage. */
module VotacaoContext {
  import opened Wrappers
  import opened Text
  import opened Sequencias
  import opened Ministerios

  /** A nominee of the election in progress. */
  datatype Candidato = Candidato(id: string, nome: string, votos: int)

  /** The record kept for a finished election; `tempoGasto` is in seconds. */
  datatype Resultado = Resultado(
    ministerioId: string,
    ministerioNome: string,
    cargoId: string,
    cargoNome: string,
    candidatos: seq<Candidato>,
    vencedor: Option<string>,
    timestamp: int,
    tempoGasto: int)

  /** `Math.round(a / b)` for a positive divisor: the integer nearest to a/b, halves rounded up. */
  function ArredondarDivisao(a: int, b: int): (r: int)
    requires b > 0
    ensures 2 * b * r <= 2 * a + b < 2 * b * (r + 1)
  {
    (2 * a + b) / (2 * b)
  }

  /** A quotient that is already whole is returned unchanged. */
  lemma ArredondarDivisaoExata(k: int, b: int)
    requires b > 0
    ensures ArredondarDivisao(k * b, b) == k
  {
    var r := ArredondarDivisao(k * b, b);
    assert 2 * (k * b) == 2 * b * k;
    if r > k {
      assert 2 * b * (k + 1) == 2 * b * k + 2 * b;
      MultiplicarMonotono(2 * b, k + 1, r);
    }
  }

  // ---------------------------------------------------------------------------
  // Candidate lists

  function IdDe(c: Candidato): string
  {
    c.id
  }

  /** No two candidates share an id. */
  predicate IdsUnicos(cs: seq<Candidato>)
  {
    ChavesDistintas(cs, IdDe)
  }

  /** Every vote count is non-negative. */
  predicate VotosValidos(cs: seq<Candidato>)
  {
    forall i :: 0 <= i < |cs| ==> cs[i].votos >= 0
  }

  predicate TemCandidato(cs: seq<Candidato>, id: string)
  {
    exists i :: 0 <= i < |cs| && cs[i].id == id
  }

  /** Two lists that hold the same candidates in the same order, whatever their votes. */
  predicate MesmosCandidatos(cs: seq<Candidato>, ds: seq<Candidato>)
  {
    |cs| == |ds| && forall i :: 0 <= i < |cs| ==> cs[i].id == ds[i].id && cs[i].nome == ds[i].nome
  }

  /** The position of the first candidate with id `id`, or -1. */
  function IndiceCandidato(cs: seq<Candidato>, id: string): (k: int)
    ensures -1 <= k < |cs|
    ensures k >= 0 ==> cs[k].id == id && forall j :: 0 <= j < k ==> cs[j].id != id
    ensures k < 0 ==> forall j :: 0 <= j < |cs| ==> cs[j].id != id
  {
    if cs == [] then -1
    else if cs[0].id == id then 0
    else
      var k := IndiceCandidato(cs[1..], id);
      if k < 0 then -1 else k + 1
  }

  /** The position depends only on the ids. */
  lemma IndiceMesmosCandidatos(cs: seq<Candidato>, ds: seq<Candidato>, id: string)
    requires MesmosCandidatos(cs, ds)
    ensures IndiceCandidato(cs, id) == IndiceCandidato(ds, id)
  {
    var k, l := IndiceCandidato(cs, id), IndiceCandidato(ds, id);
  }

  /** With distinct ids, the candidate holding an id is the one found. */
  lemma IndiceUnico(cs: seq<Candidato>, k: nat)
    requires IdsUnicos(cs) && k < |cs|
    ensures IndiceCandidato(cs, cs[k].id) == k
  {
    var l := IndiceCandidato(cs, cs[k].id);
    assert l >= 0;
  }

  /** `candidatos.find(c => c.id === id)`. */
  function BuscarCandidato(cs: seq<Candidato>, id: string): (r: Option<Candidato>)
    ensures r.None? <==> !TemCandidato(cs, id)
    ensures r.Some? ==> r.value in cs && r.value.id == id
    ensures r.Some? ==> exists k :: 0 <= k < |cs| && cs[k] == r.value && forall j :: 0 <= j < k ==> cs[j].id != id
  {
    var k := IndiceCandidato(cs, id);
    if k < 0 then None else Some(cs[k])
  }

  /** The vote count shown for `id`: that of the first candidate with that id, or 0. */
  function VotosDe(cs: seq<Candidato>, id: string): (v: int)
    ensures !TemCandidato(cs, id) ==> v == 0
    ensures VotosValidos(cs) ==> v >= 0
  {
    match BuscarCandidato(cs, id)
    case None => 0
    case Some(c) => c.votos
  }

  /** `adicionarVoto`: one more vote for every candidate with id `id`. */
  function ComVotoAdicionado(cs: seq<Candidato>, id: string): (r: seq<Candidato>)
    ensures MesmosCandidatos(cs, r)
  {
    seq(|cs|, i requires 0 <= i < |cs| => if cs[i].id == id then cs[i].(votos := cs[i].votos + 1) else cs[i])
  }

  /** `removerVoto`: one vote less for every candidate with id `id` that has a vote. */
  function ComVotoRemovido(cs: seq<Candidato>, id: string): (r: seq<Candidato>)
    ensures MesmosCandidatos(cs, r)
  {
    seq(|cs|, i requires 0 <= i < |cs| => if cs[i].id == id && cs[i].votos > 0 then cs[i].(votos := cs[i].votos - 1) else cs[i])
  }

  /** `zerarVotosCandidato`: the candidates with id `id` lose all their votes. */
  function ComVotosZerados(cs: seq<Candidato>, id: string): (r: seq<Candidato>)
    ensures MesmosCandidatos(cs, r)
  {
    seq(|cs|, i requires 0 <= i < |cs| => if cs[i].id == id then cs[i].(votos := 0) else cs[i])
  }

  /** `removerCandidato`: the list without the candidates with id `id`. */
  function SemCandidato(cs: seq<Candidato>, id: string): (r: seq<Candidato>)
    ensures !TemCandidato(r, id)
    ensures forall c :: c in r <==> c in cs && c.id != id
  {
    var r := Filtrar(cs, (c: Candidato) => c.id != id);
    assert forall i :: 0 <= i < |r| ==> r[i] in r;
    r
  }

  /** Each vote operation leaves every other candidate's count alone and changes
      the count of `id` by exactly its own amount. */
  lemma VotosAposAdicionarVoto(cs: seq<Candidato>, id: string, x: string)
    ensures VotosDe(ComVotoAdicionado(cs, id), x) ==
      if x == id && TemCandidato(cs, id) then VotosDe(cs, x) + 1 else VotosDe(cs, x)
  {
    IndiceMesmosCandidatos(cs, ComVotoAdicionado(cs, id), x);
  }

  lemma VotosAposRemoverVoto(cs: seq<Candidato>, id: string, x: string)
    ensures VotosDe(ComVotoRemovido(cs, id), x) ==
      if x == id && VotosDe(cs, id) > 0 then VotosDe(cs, x) - 1 else VotosDe(cs, x)
  {
    IndiceMesmosCandidatos(cs, ComVotoRemovido(cs, id), x);
  }

  lemma VotosAposZerar(cs: seq<Candidato>, id: string, x: string)
    ensures VotosDe(ComVotosZerados(cs, id), x) == if x == id then 0 else VotosDe(cs, x)
  {
    IndiceMesmosCandidatos(cs, ComVotosZerados(cs, id), x);
  }

  /** Removing the vote just added gives back the list, as long as no count was negative. */
  lemma RemoverVotoDesfazAdicionar(cs: seq<Candidato>, id: string)
    requires VotosValidos(cs)
    ensures ComVotoRemovido(ComVotoAdicionado(cs, id), id) == cs
  {
    var r := ComVotoRemovido(ComVotoAdicionado(cs, id), id);
    assert forall i :: 0 <= i < |cs| ==> r[i] == cs[i];
  }

  /** The vote operations keep every count non-negative; removal keeps the ids distinct. */
  lemma OperacoesPreservamVotosValidos(cs: seq<Candidato>, id: string)
    requires VotosValidos(cs)
    ensures VotosValidos(ComVotoAdicionado(cs, id))
    ensures VotosValidos(ComVotoRemovido(cs, id))
    ensures VotosValidos(ComVotosZerados(cs, id))
    ensures VotosValidos(SemCandidato(cs, id))
  {
    var r := SemCandidato(cs, id);
    forall i | 0 <= i < |r| ensures r[i].votos >= 0 {
      assert r[i] in r;
    }
  }

  lemma OperacoesPreservamIdsUnicos(cs: seq<Candidato>, id: string)
    requires IdsUnicos(cs)
    ensures IdsUnicos(ComVotoAdicionado(cs, id))
    ensures IdsUnicos(ComVotoRemovido(cs, id))
    ensures IdsUnicos(ComVotosZerados(cs, id))
    ensures IdsUnicos(SemCandidato(cs, id))
  {
    FiltrarChavesDistintas(cs, (c: Candidato) => c.id != id, IdDe);
    MesmosCandidatosIdsUnicos(cs, ComVotoAdicionado(cs, id));
    MesmosCandidatosIdsUnicos(cs, ComVotoRemovido(cs, id));
    MesmosCandidatosIdsUnicos(cs, ComVotosZerados(cs, id));
  }

  /** A list with the same ids position by position has distinct ids when the original does. */
  lemma MesmosCandidatosIdsUnicos(cs: seq<Candidato>, ds: seq<Candidato>)
    requires IdsUnicos(cs) && MesmosCandidatos(cs, ds)
    ensures IdsUnicos(ds)
  {
    forall i, j | 0 <= i < j < |ds| ensures IdDe(ds[i]) != IdDe(ds[j]) {
      assert IdDe(cs[i]) != IdDe(cs[j]);
    }
  }

  /** Appending a candidate whose id is new keeps the ids distinct. */
  lemma AnexarPreservaIdsUnicos(cs: seq<Candidato>, c: Candidato)
    requires IdsUnicos(cs) && !TemCandidato(cs, c.id)
    ensures IdsUnicos(cs + [c])
  {
    var r := cs + [c];
    forall i, j | 0 <= i < j < |r| ensures IdDe(r[i]) != IdDe(r[j]) {
      assert r[i] == cs[i];
      if j < |cs| { assert r[j] == cs[j]; }
    }
  }

  /** Appending a candidate with a non-negative count keeps every count non-negative. */
  lemma AnexarPreservaVotosValidos(cs: seq<Candidato>, c: Candidato)
    requires VotosValidos(cs) && c.votos >= 0
    ensures VotosValidos(cs + [c])
  {
    var r := cs + [c];
    forall i | 0 <= i < |r| ensures r[i].votos >= 0 {
      if i < |cs| { assert r[i] == cs[i]; }
    }
  }

  /** `candidatos.reduce((acc, c) => acc + c.votos, 0)`. */
  function TotalVotos(cs: seq<Candidato>): (t: int)
    ensures VotosValidos(cs) ==> t >= 0
  {
    if cs == [] then 0 else TotalVotos(cs[..|cs| - 1]) + cs[|cs| - 1].votos
  }

  lemma {:induction false} TotalMesmosVotos(cs: seq<Candidato>, ds: seq<Candidato>)
    requires |cs| == |ds| && forall i :: 0 <= i < |cs| ==> cs[i].votos == ds[i].votos
    ensures TotalVotos(cs) == TotalVotos(ds)
  {
    if cs != [] {
      TotalMesmosVotos(cs[..|cs| - 1], ds[..|ds| - 1]);
    }
  }

  /** Lists that differ only in the count at `k` differ in total by that much. */
  lemma {:induction false} TotalDiferencaEm(cs: seq<Candidato>, ds: seq<Candidato>, k: nat)
    requires |cs| == |ds| && k < |cs|
    requires forall i :: 0 <= i < |cs| && i != k ==> cs[i].votos == ds[i].votos
    ensures TotalVotos(ds) == TotalVotos(cs) + ds[k].votos - cs[k].votos
  {
    var n := |cs| - 1;
    if k == n {
      TotalMesmosVotos(cs[..n], ds[..n]);
    } else {
      TotalDiferencaEm(cs[..n], ds[..n], k);
    }
  }

  /** With distinct ids, voting, unvoting and zeroing move the total by the change in the one count. */
  lemma TotalAposOperacao(cs: seq<Candidato>, ds: seq<Candidato>, id: string)
    requires IdsUnicos(cs) && MesmosCandidatos(cs, ds)
    requires forall i :: 0 <= i < |cs| && cs[i].id != id ==> ds[i].votos == cs[i].votos
    ensures TotalVotos(ds) == TotalVotos(cs) + VotosDe(ds, id) - VotosDe(cs, id)
  {
    IndiceMesmosCandidatos(cs, ds, id);
    var k := IndiceCandidato(cs, id);
    if k >= 0 {
      forall i | 0 <= i < |cs| && i != k ensures cs[i].votos == ds[i].votos {
        if i < k { assert IdDe(cs[i]) != IdDe(cs[k]); } else { assert IdDe(cs[k]) != IdDe(cs[i]); }
      }
      TotalDiferencaEm(cs, ds, k);
    } else {
      TotalMesmosVotos(cs, ds);
    }
  }

  lemma TotalAposAdicionarVoto(cs: seq<Candidato>, id: string)
    requires IdsUnicos(cs)
    ensures TotalVotos(ComVotoAdicionado(cs, id)) == TotalVotos(cs) + if TemCandidato(cs, id) then 1 else 0
  {
    VotosAposAdicionarVoto(cs, id, id);
    TotalAposOperacao(cs, ComVotoAdicionado(cs, id), id);
  }

  lemma TotalAposRemoverVoto(cs: seq<Candidato>, id: string)
    requires IdsUnicos(cs)
    ensures TotalVotos(ComVotoRemovido(cs, id)) == TotalVotos(cs) - if VotosDe(cs, id) > 0 then 1 else 0
  {
    VotosAposRemoverVoto(cs, id, id);
    TotalAposOperacao(cs, ComVotoRemovido(cs, id), id);
  }

  lemma TotalAposZerar(cs: seq<Candidato>, id: string)
    requires IdsUnicos(cs)
    ensures TotalVotos(ComVotosZerados(cs, id)) == TotalVotos(cs) - VotosDe(cs, id)
  {
    VotosAposZerar(cs, id, id);
    TotalAposOperacao(cs, ComVotosZerados(cs, id), id);
  }

  /** With no negative count, the total is zero exactly when nobody has a vote. */
  lemma {:induction false} TotalZeroSemVotos(cs: seq<Candidato>)
    requires VotosValidos(cs)
    ensures TotalVotos(cs) == 0 <==> forall i :: 0 <= i < |cs| ==> cs[i].votos == 0
  {
    if cs != [] {
      var n := |cs| - 1;
      TotalZeroSemVotos(cs[..n]);
      if TotalVotos(cs) == 0 {
        assert TotalVotos(cs[..n]) >= 0;
        forall i | 0 <= i < |cs| ensures cs[i].votos == 0 {
          if i < n { assert cs[..n][i] == cs[i]; }
        }
      }
    }
  }

  // ---------------------------------------------------------------------------
  // The winner

  /** The step of the `reduce` that picks the winner: a later candidate replaces
      the current one only with strictly more votes. */
  function MaisVotado(atual: Candidato, cs: seq<Candidato>): (r: Candidato)
    ensures r == atual || r in cs
    ensures r.votos >= atual.votos
    decreases |cs|
  {
    if cs == [] then atual
    else MaisVotado(if cs[0].votos > atual.votos then cs[0] else atual, cs[1..])
  }

  /** `candidatos.reduce(..., candidatos[0])`: `None` for an empty list. */
  function Vencedor(cs: seq<Candidato>): (r: Option<Candidato>)
    ensures r.None? <==> cs == []
    ensures r.Some? ==> r.value in cs
  {
    if cs == [] then None else Some(MaisVotado(cs[0], cs))
  }

  /** `k` holds the most votes, and every candidate before it strictly fewer. */
  predicate PrimeiroMaisVotado(cs: seq<Candidato>, k: nat)
  {
    k < |cs| &&
    (forall j :: 0 <= j < |cs| ==> cs[j].votos <= cs[k].votos) &&
    (forall j :: 0 <= j < k ==> cs[j].votos < cs[k].votos)
  }

  lemma {:induction false} MaisVotadoIndice(atual: Candidato, cs: seq<Candidato>) returns (k: int)
    ensures -1 <= k < |cs|
    ensures k < 0 ==> MaisVotado(atual, cs) == atual && (forall j :: 0 <= j < |cs| ==> cs[j].votos <= atual.votos)
    ensures k >= 0 ==>
      MaisVotado(atual, cs) == cs[k] && cs[k].votos > atual.votos &&
      (forall j :: 0 <= j < |cs| ==> cs[j].votos <= cs[k].votos) &&
      (forall j :: 0 <= j < k ==> cs[j].votos < cs[k].votos)
    decreases |cs|
  {
    if cs == [] {
      k := -1;
    } else {
      var proximo := if cs[0].votos > atual.votos then cs[0] else atual;
      var k' := MaisVotadoIndice(proximo, cs[1..]);
      if k' >= 0 {
        k := k' + 1;
        assert cs[k] == cs[1..][k'];
        forall j | 0 <= j < |cs| ensures cs[j].votos <= cs[k].votos {
          if j > 0 { assert cs[j] == cs[1..][j - 1]; }
        }
        forall j | 0 <= j < k ensures cs[j].votos < cs[k].votos {
          if j > 0 { assert cs[j] == cs[1..][j - 1]; }
        }
      } else if cs[0].votos > atual.votos {
        k := 0;
        forall j | 0 <= j < |cs| ensures cs[j].votos <= cs[0].votos {
          if j > 0 { assert cs[j] == cs[1..][j - 1]; }
        }
      } else {
        k := -1;
        forall j | 0 <= j < |cs| ensures cs[j].votos <= atual.votos {
          if j > 0 { assert cs[j] == cs[1..][j - 1]; }
        }
      }
    }
  }

  /** The winner of a non-empty list is its first candidate with the most votes. */
  lemma VencedorIndice(cs: seq<Candidato>) returns (k: nat)
    requires cs != []
    ensures PrimeiroMaisVotado(cs, k) && Vencedor(cs) == Some(cs[k])
  {
    var m := MaisVotadoIndice(cs[0], cs);
    if m < 0 { k := 0; } else { k := m; }
  }

  /** Conversely, the first candidate with the most votes is the winner (ties go to the earlier one). */
  lemma VencedorEhPrimeiroMaisVotado(cs: seq<Candidato>, k: nat)
    requires PrimeiroMaisVotado(cs, k)
    ensures Vencedor(cs) == Some(cs[k])
  {
    var w := VencedorIndice(cs);
  }

  // ---------------------------------------------------------------------------
  // Finished elections and the derived figures

  /** The ministry of `ms` an id stands for; a missing or empty id stands for none. */
  function MinisterioDoId(ms: seq<Ministerio>, id: Option<string>): (r: Option<Ministerio>)
    ensures r.Some? ==> id.Some? && r.value.id == id.value && r.value in ms
    ensures id.Some? && id.value != "" ==> r == Buscar(ms, id.value)
  {
    if id.None? || id.value == "" then None else Buscar(ms, id.value)
  }

  /** The record `finalizarMinisterio` stores for ministry `m` at time `agora`
      (milliseconds), the stage having started at `inicio`. */
  function NovoResultado(m: Ministerio, cs: seq<Candidato>, inicio: int, agora: int): (r: Resultado)
    ensures r.ministerioId == m.id && r.ministerioNome == m.nome && r.candidatos == cs
    ensures r.timestamp == agora
    ensures 2000 * r.tempoGasto <= 2 * (agora - inicio) + 1000 < 2000 * (r.tempoGasto + 1)
  {
    var primeiro := if m.cargos == [] then Cargo("", "", Principal) else m.cargos[0];
    Resultado(m.id, m.nome, primeiro.id, primeiro.nome, cs,
      match Vencedor(cs) case None => None case Some(c) => Some(c.nome),
      agora, ArredondarDivisao(agora - inicio, 1000))
  }

  /** The stored winner is absent exactly when there were no candidates, and is
      otherwise the name of the first candidate with the most votes; the seat is
      the ministry's first one. */
  lemma NovoResultadoVencedor(m: Ministerio, cs: seq<Candidato>, inicio: int, agora: int, k: nat)
    requires PrimeiroMaisVotado(cs, k)
    ensures NovoResultado(m, cs, inicio, agora).vencedor == Some(cs[k].nome)
  {
    VencedorEhPrimeiroMaisVotado(cs, k);
  }

  lemma NovoResultadoSemCandidatos(m: Ministerio, inicio: int, agora: int)
    ensures NovoResultado(m, [], inicio, agora).vencedor == None
  {
  }

  lemma NovoResultadoCargo(m: Ministerio, cs: seq<Candidato>, inicio: int, agora: int)
    requires m in Catalogo
    ensures var r := NovoResultado(m, cs, inicio, agora);
      r.cargoId == m.cargos[0].id && r.cargoNome == m.cargos[0].nome
  {
    CatalogoCargosNaoVazios();
  }

  /** `progressoGeral`: finished elections as a rounded percentage of the catalogue. */
  function ProgressoGeral(rs: seq<Resultado>): (p: int)
    ensures p >= 0
  {
    ArredondarDivisao(100 * |rs|, |Catalogo|)
  }

  /** Each finished election is worth exactly 4 points, so 100 means all 25 are done. */
  lemma ProgressoGeralQuatroPorCento(rs: seq<Resultado>)
    ensures ProgressoGeral(rs) == 4 * |rs|
    ensures ProgressoGeral(rs) == 100 <==> |rs| == |Catalogo|
  {
    CatalogoTamanho();
    ArredondarDivisaoExata(4 * |rs|, 25);
  }

  /** The sum of the recorded durations. */
  function TempoTotal(rs: seq<Resultado>): (t: int)
  {
    if rs == [] then 0 else TempoTotal(rs[..|rs| - 1]) + rs[|rs| - 1].tempoGasto
  }

  /** `tempoEstimado`: the mean duration so far times the ministries not yet finished,
      rounded to the nearest integer. */
  function TempoEstimado(rs: seq<Resultado>): (t: int)
    ensures rs == [] ==> t == 0
    ensures rs != [] ==>
      var n, total := |rs|, TempoTotal(rs) * (|Catalogo| - |rs|);
      2 * n * t <= 2 * total + n < 2 * n * (t + 1)
  {
    if rs == [] then 0 else ArredondarDivisao(TempoTotal(rs) * (|Catalogo| - |rs|), |rs|)
  }

  /** Rounding a quotient is monotone in the dividend. */
  lemma ArredondarDivisaoMonotona(a1: int, a2: int, b: int)
    requires b > 0 && a1 <= a2
    ensures ArredondarDivisao(a1, b) <= ArredondarDivisao(a2, b)
  {
    var r1, r2 := ArredondarDivisao(a1, b), ArredondarDivisao(a2, b);
    if r1 > r2 {
      MultiplicarMonotono(2 * b, r2 + 1, r1);
    }
  }

  /** Durations between `lo` and `hi` add up to between `lo` and `hi` times their number. */
  lemma {:induction false} TempoTotalEntre(rs: seq<Resultado>, lo: int, hi: int)
    requires forall i :: 0 <= i < |rs| ==> lo <= rs[i].tempoGasto <= hi
    ensures lo * |rs| <= TempoTotal(rs) <= hi * |rs|
  {
    if rs != [] {
      var n := |rs| - 1;
      assert forall i :: 0 <= i < n ==> rs[..n][i] == rs[i];
      TempoTotalEntre(rs[..n], lo, hi);
      assert lo * |rs| == lo * n + lo && hi * |rs| == hi * n + hi;
    }
  }

  /** The rounded mean of a total between `lo·n` and `hi·n`, scaled by `resto`, lies
      between `lo·resto` and `hi·resto` (in that order when `resto` is not negative). */
  lemma MediaEscaladaEntre(total: int, n: int, resto: int, lo: int, hi: int)
    requires n > 0 && lo * n <= total <= hi * n
    ensures resto >= 0 ==> lo * resto <= ArredondarDivisao(total * resto, n) <= hi * resto
    ensures resto < 0 ==> hi * resto <= ArredondarDivisao(total * resto, n) <= lo * resto
  {
    assert (lo * resto) * n == resto * (lo * n) && (hi * resto) * n == resto * (hi * n);
    assert total * resto == resto * total;
    if resto >= 0 {
      MultiplicarMonotono(resto, lo * n, total);
      MultiplicarMonotono(resto, total, hi * n);
      ArredondarDivisaoMonotona((lo * resto) * n, total * resto, n);
      ArredondarDivisaoMonotona(total * resto, (hi * resto) * n, n);
    } else {
      MultiplicarMonotono(-resto, lo * n, total);
      MultiplicarMonotono(-resto, total, hi * n);
      assert (-resto) * (lo * n) == -(resto * (lo * n)) && (-resto) * total == -(resto * total);
      assert (-resto) * (hi * n) == -(resto * (hi * n));
      ArredondarDivisaoMonotona((hi * resto) * n, total * resto, n);
      ArredondarDivisaoMonotona(total * resto, (lo * resto) * n, n);
    }
    ArredondarDivisaoExata(lo * resto, n);
    ArredondarDivisaoExata(hi * resto, n);
  }

  /** When every recorded election took between `lo` and `hi` seconds, the estimate lies
      between `lo` and `hi` seconds per ministry still to go (the bounds swap once the
      results outnumber the catalogue and that count is negative). */
  lemma TempoEstimadoEntre(rs: seq<Resultado>, lo: int, hi: int)
    requires rs != []
    requires forall i :: 0 <= i < |rs| ==> lo <= rs[i].tempoGasto <= hi
    ensures var resto := |Catalogo| - |rs|;
      (resto >= 0 ==> lo * resto <= TempoEstimado(rs) <= hi * resto) &&
      (resto < 0 ==> hi * resto <= TempoEstimado(rs) <= lo * resto)
  {
    TempoTotalEntre(rs, lo, hi);
    MediaEscaladaEntre(TempoTotal(rs), |rs|, |Catalogo| - |rs|, lo, hi);
  }

  lemma {:induction false} TempoTotalConstante(rs: seq<Resultado>, d: int)
    requires forall i :: 0 <= i < |rs| ==> rs[i].tempoGasto == d
    ensures TempoTotal(rs) == d * |rs|
  {
    if rs != [] {
      TempoTotalConstante(rs[..|rs| - 1], d);
    }
  }

  /** When every election took `d` seconds, the estimate is `d` per remaining ministry. */
  lemma TempoEstimadoConstante(rs: seq<Resultado>, d: int)
    requires rs != []
    requires forall i :: 0 <= i < |rs| ==> rs[i].tempoGasto == d
    ensures TempoEstimado(rs) == d * (|Catalogo| - |rs|)
  {
    TempoTotalConstante(rs, d);
    assert TempoTotal(rs) * (|Catalogo| - |rs|) == (d * (|Catalogo| - |rs|)) * |rs|;
    ArredondarDivisaoExata(d * (|Catalogo| - |rs|), |rs|);
  }

  /** Nothing is left to estimate once every ministry has a result. */
  lemma TempoEstimadoConcluido(rs: seq<Resultado>)
    requires |rs| == |Catalogo|
    ensures TempoEstimado(rs) == 0
  {
    CatalogoTamanho();
    ArredondarDivisaoExata(0, |rs|);
  }

  /** The text of a new candidate's id; `sufixo` stands for the random part. */
  function IdNovoCandidato(agora: nat, sufixo: string): string
  {
    "candidato-" + NatToString(agora) + "-" + sufixo
  }

  /** The id gives back the clock reading and the suffix: two ids are equal only
      when both parts are. */
  lemma IdNovoCandidatoInjetivo(a1: nat, s1: string, a2: nat, s2: string)
    ensures IdNovoCandidato(a1, s1) == IdNovoCandidato(a2, s2) <==> a1 == a2 && s1 == s2
  {
    if IdNovoCandidato(a1, s1) == IdNovoCandidato(a2, s2) {
      var p := "candidato-";
      var r1, r2 := NatToString(a1) + ("-" + s1), NatToString(a2) + ("-" + s2);
      assert IdNovoCandidato(a1, s1) == p + r1;
      assert IdNovoCandidato(a2, s2) == p + r2;
      assert r1 == (p + r1)[|p|..] == (p + r2)[|p|..] == r2;
      DigitPrefixConcat(NatToString(a1), "-" + s1);
      DigitPrefixConcat(NatToString(a2), "-" + s2);
      NatToStringInjective(a1, a2);
      assert ("-" + s1)[1..] == s1 && ("-" + s2)[1..] == s2;
      assert r1[|NatToString(a1)|..] == "-" + s1;
    }
  }

  // ---------------------------------------------------------------------------
  // The provider's state and operations. `agora` is the clock reading in
  // milliseconds at the moment of the call.

  class Votacao {
    /** The catalogue the provider offers. */
    const ministerios: seq<Ministerio>
    var ministerioAtualId: Option<string>
    var etapaAtual: int
    var candidatos: seq<Candidato>
    var resultados: seq<Resultado>
    var inicioEtapa: int

    /** The stage is 1, 2 or 3, no count is negative, and a selected ministry exists. */
    predicate Valid()
      reads this
    {
      1 <= etapaAtual <= 3 && VotosValidos(candidatos) &&
      (ministerioAtualId.Some? ==> Buscar(ministerios, ministerioAtualId.value).Some?)
    }

    /** `ministerioAtual`. */
    function MinisterioAtual(): (r: Option<Ministerio>)
      reads this
      ensures r.Some? ==> ministerioAtualId == Some(r.value.id)
    {
      MinisterioDoId(ministerios, ministerioAtualId)
    }

    /** The state of a first start: nothing selected, stage 1, no candidates or results. */
    constructor(agora: int)
      ensures Valid() && ministerios == Catalogo
      ensures ministerioAtualId == None && etapaAtual == 1 && candidatos == [] && resultados == []
      ensures inicioEtapa == agora
    {
      ministerios := Catalogo;
      ministerioAtualId := None;
      etapaAtual := 1;
      candidatos := [];
      resultados := [];
      inicioEtapa := agora;
    }

    method SelecionarMinisterio(id: string, agora: int)
      requires Valid()
      modifies this
      ensures Valid()
      ensures Buscar(ministerios, id).None? ==> unchanged(this)
      ensures Buscar(ministerios, id).Some? ==>
        ministerioAtualId == Some(id) && etapaAtual == 1 && candidatos == [] &&
        resultados == old(resultados) && inicioEtapa == agora
    {
      if Buscar(ministerios, id).Some? {
        ministerioAtualId := Some(id);
        etapaAtual := 1;
        candidatos := [];
        inicioEtapa := agora;
      }
    }

    method ProximaEtapa(agora: int)
      requires Valid()
      modifies this
      ensures Valid()
      ensures old(etapaAtual) == 3 ==> unchanged(this)
      ensures old(etapaAtual) < 3 ==>
        etapaAtual == old(etapaAtual) + 1 && inicioEtapa == agora &&
        ministerioAtualId == old(ministerioAtualId) && candidatos == old(candidatos) &&
        resultados == old(resultados)
    {
      if etapaAtual < 3 {
        etapaAtual := etapaAtual + 1;
        inicioEtapa := agora;
      }
    }

    /** Leaves the ministry: no selection, stage 1, no candidates; the stage
        clock restarts only if the stage actually changes. */
    method CancelarMinisterio(agora: int)
      requires Valid()
      modifies this
      ensures Valid()
      ensures ministerioAtualId == None && etapaAtual == 1 && candidatos == []
      ensures resultados == old(resultados)
      ensures inicioEtapa == if old(etapaAtual) != 1 then agora else old(inicioEtapa)
    {
      if etapaAtual != 1 {
        inicioEtapa := agora;
      }
      ministerioAtualId := None;
      etapaAtual := 1;
      candidatos := [];
    }

    method VoltarEtapa(agora: int)
      requires Valid()
      modifies this
      ensures Valid()
      ensures old(etapaAtual) > 1 ==>
        etapaAtual == old(etapaAtual) - 1 && inicioEtapa == agora &&
        ministerioAtualId == old(ministerioAtualId) && candidatos == old(candidatos) &&
        resultados == old(resultados)
      ensures old(etapaAtual) == 1 ==>
        ministerioAtualId == None && etapaAtual == 1 && candidatos == [] &&
        resultados == old(resultados) && inicioEtapa == old(inicioEtapa)
    {
      if etapaAtual > 1 {
        etapaAtual := etapaAtual - 1;
        inicioEtapa := agora;
      } else {
        CancelarMinisterio(agora);
      }
    }

    /** A blank name is ignored; otherwise the trimmed name joins the list with no votes. */
    method AdicionarCandidato(nome: string, agora: nat, sufixo: string)
      requires Valid()
      modifies this
      ensures Valid()
      ensures Blank(nome) ==> unchanged(this)
      ensures !Blank(nome) ==>
        candidatos == old(candidatos) + [Candidato(IdNovoCandidato(agora, sufixo), Trim(nome), 0)] &&
        ministerioAtualId == old(ministerioAtualId) && etapaAtual == old(etapaAtual) &&
        resultados == old(resultados) && inicioEtapa == old(inicioEtapa)
      ensures IdsUnicos(old(candidatos)) && !TemCandidato(old(candidatos), IdNovoCandidato(agora, sufixo)) ==>
        IdsUnicos(candidatos)
    {
      var nomeLimpo := Trim(nome);
      if nomeLimpo != [] {
        var novo := Candidato(IdNovoCandidato(agora, sufixo), nomeLimpo, 0);
        AnexarPreservaVotosValidos(candidatos, novo);
        if IdsUnicos(candidatos) && !TemCandidato(candidatos, novo.id) {
          AnexarPreservaIdsUnicos(candidatos, novo);
        }
        candidatos := candidatos + [novo];
      }
    }

    method RemoverCandidato(id: string)
      requires Valid()
      modifies this
      ensures Valid()
      ensures candidatos == SemCandidato(old(candidatos), id)
      ensures ministerioAtualId == old(ministerioAtualId) && etapaAtual == old(etapaAtual)
      ensures resultados == old(resultados) && inicioEtapa == old(inicioEtapa)
      ensures IdsUnicos(old(candidatos)) ==> IdsUnicos(candidatos)
    {
      OperacoesPreservamVotosValidos(candidatos, id);
      if IdsUnicos(candidatos) { OperacoesPreservamIdsUnicos(candidatos, id); }
      candidatos := SemCandidato(candidatos, id);
    }

    method AdicionarVoto(id: string)
      requires Valid()
      modifies this
      ensures Valid()
      ensures candidatos == ComVotoAdicionado(old(candidatos), id)
      ensures ministerioAtualId == old(ministerioAtualId) && etapaAtual == old(etapaAtual)
      ensures resultados == old(resultados) && inicioEtapa == old(inicioEtapa)
      ensures IdsUnicos(old(candidatos)) ==> IdsUnicos(candidatos)
    {
      OperacoesPreservamVotosValidos(candidatos, id);
      if IdsUnicos(candidatos) { OperacoesPreservamIdsUnicos(candidatos, id); }
      candidatos := ComVotoAdicionado(candidatos, id);
    }

    method RemoverVoto(id: string)
      requires Valid()
      modifies this
      ensures Valid()
      ensures candidatos == ComVotoRemovido(old(candidatos), id)
      ensures ministerioAtualId == old(ministerioAtualId) && etapaAtual == old(etapaAtual)
      ensures resultados == old(resultados) && inicioEtapa == old(inicioEtapa)
      ensures IdsUnicos(old(candidatos)) ==> IdsUnicos(candidatos)
    {
      OperacoesPreservamVotosValidos(candidatos, id);
      if IdsUnicos(candidatos) { OperacoesPreservamIdsUnicos(candidatos, id); }
      candidatos := ComVotoRemovido(candidatos, id);
    }

    method ZerarVotosCandidato(id: string)
      requires Valid()
      modifies this
      ensures Valid()
      ensures candidatos == ComVotosZerados(old(candidatos), id)
      ensures ministerioAtualId == old(ministerioAtualId) && etapaAtual == old(etapaAtual)
      ensures resultados == old(resultados) && inicioEtapa == old(inicioEtapa)
      ensures IdsUnicos(old(candidatos)) ==> IdsUnicos(candidatos)
    {
      OperacoesPreservamVotosValidos(candidatos, id);
      if IdsUnicos(candidatos) { OperacoesPreservamIdsUnicos(candidatos, id); }
      candidatos := ComVotosZerados(candidatos, id);
    }

    /** Without a current ministry nothing happens; otherwise its result is appended
        and the provider returns to "nothing selected". */
    method FinalizarMinisterio(agora: int)
      requires Valid()
      modifies this
      ensures Valid()
      ensures old(MinisterioAtual()).None? ==> unchanged(this)
      ensures old(MinisterioAtual()).Some? ==>
        resultados == old(resultados) + [NovoResultado(old(MinisterioAtual()).value, old(candidatos), old(inicioEtapa), agora)] &&
        ministerioAtualId == None && etapaAtual == 1 && candidatos == [] &&
        inicioEtapa == (if old(etapaAtual) != 1 then agora else old(inicioEtapa))
    {
      var atual := MinisterioAtual();
      if atual.Some? {
        var resultado := NovoResultado(atual.value, candidatos, inicioEtapa, agora);
        resultados := resultados + [resultado];
        if etapaAtual != 1 {
          inicioEtapa := agora;
        }
        ministerioAtualId := None;
        etapaAtual := 1;
        candidatos := [];
      }
    }

    /** `confirmado` is the user's answer to the confirmation dialog. */
    method ResetarSistema(confirmado: bool, agora: int)
      requires Valid()
      modifies this
      ensures Valid()
      ensures !confirmado ==> unchanged(this)
      ensures confirmado ==>
        ministerioAtualId == None && etapaAtual == 1 && candidatos == [] && resultados == [] &&
        inicioEtapa == agora
    {
      if confirmado {
        ministerioAtualId := None;
        etapaAtual := 1;
        candidatos := [];
        resultados := [];
        inicioEtapa := agora;
      }
    }
  }
}
