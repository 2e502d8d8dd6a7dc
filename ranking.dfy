/** The tally shared by the confirmation dialog and the vote counter: the total,
    the ranking `[...candidatos].sort((a, b) => b.votos - a.votos)` (a copy sorted
    by descending votes; JavaScript's sort is stable, so ties keep list order)
    and the rounded percentage of the total. */
module Ranking {
  import opened Wrappers
  import opened Text
  import opened VotacaoContext

  /** Inserts `c` before the first candidate with at most as many votes. */
  function Inserir(c: Candidato, ds: seq<Candidato>): (r: seq<Candidato>)
    ensures |r| == |ds| + 1
    decreases |ds|
  {
    if ds == [] || c.votos >= ds[0].votos then [c] + ds
    else [ds[0]] + Inserir(c, ds[1..])
  }

  /** Inserting adds `c` and keeps every other candidate. */
  lemma {:induction false} InserirPermutacao(c: Candidato, ds: seq<Candidato>)
    ensures multiset(Inserir(c, ds)) == multiset(ds) + multiset{c}
    decreases |ds|
  {
    if ds != [] && c.votos < ds[0].votos {
      InserirPermutacao(c, ds[1..]);
      assert ds == [ds[0]] + ds[1..];
    }
  }

  /** The ranking: a stable sort by descending votes (insertion sort). */
  function Ordenar(s: seq<Candidato>): (r: seq<Candidato>)
    ensures |r| == |s|
    ensures multiset(r) == multiset(s)
  {
    if s == [] then []
    else
      assert s == [s[0]] + s[1..];
      InserirPermutacao(s[0], Ordenar(s[1..]));
      Inserir(s[0], Ordenar(s[1..]))
  }

  /** Non-increasing vote counts. */
  predicate Decrescente(s: seq<Candidato>)
  {
    forall i, j :: 0 <= i < j < |s| ==> s[i].votos >= s[j].votos
  }

  lemma {:induction false} InserirDecrescente(c: Candidato, ds: seq<Candidato>)
    requires Decrescente(ds)
    ensures Decrescente(Inserir(c, ds))
    decreases |ds|
  {
    var r := Inserir(c, ds);
    if ds == [] || c.votos >= ds[0].votos {
      forall i, j | 0 <= i < j < |r| ensures r[i].votos >= r[j].votos {
        if i == 0 {
          assert r[j] == ds[j - 1];
          assert ds[0].votos >= ds[j - 1].votos;
        } else {
          assert r[i] == ds[i - 1] && r[j] == ds[j - 1];
        }
      }
    } else {
      var resto := ds[1..];
      assert Decrescente(resto) by {
        forall i, j | 0 <= i < j < |resto| ensures resto[i].votos >= resto[j].votos {
          assert resto[i] == ds[i + 1] && resto[j] == ds[j + 1];
        }
      }
      InserirDecrescente(c, resto);
      var t := Inserir(c, resto);
      InserirPermutacao(c, resto);
      forall i, j | 0 <= i < j < |r| ensures r[i].votos >= r[j].votos {
        if i == 0 {
          assert r[j] == t[j - 1];
          assert t[j - 1] in multiset(t);
          if t[j - 1] != c {
            assert t[j - 1] in multiset(resto);
            var k :| 0 <= k < |resto| && resto[k] == t[j - 1];
            assert ds[k + 1] == t[j - 1];
          }
        } else {
          assert r[i] == t[i - 1] && r[j] == t[j - 1];
        }
      }
    }
  }

  /** The ranking is in non-increasing vote order. */
  lemma {:induction false} OrdenarDecrescente(s: seq<Candidato>)
    ensures Decrescente(Ordenar(s))
  {
    if s != [] {
      OrdenarDecrescente(s[1..]);
      InserirDecrescente(s[0], Ordenar(s[1..]));
    }
  }

  /** The candidates with exactly `v` votes, in list order. */
  function Empatados(s: seq<Candidato>, v: int): (r: seq<Candidato>)
  {
    if s == [] then []
    else (if s[0].votos == v then [s[0]] else []) + Empatados(s[1..], v)
  }

  /** The tied candidates are exactly the candidates of `s` with `v` votes. */
  lemma {:induction false} EmpatadosMembro(s: seq<Candidato>, v: int)
    ensures forall c :: c in Empatados(s, v) <==> c in s && c.votos == v
  {
    if s != [] {
      EmpatadosMembro(s[1..], v);
      assert s == [s[0]] + s[1..];
    }
  }

  lemma EmpatadosCons(x: Candidato, s: seq<Candidato>, v: int)
    ensures Empatados([x] + s, v) == (if x.votos == v then [x] else []) + Empatados(s, v)
  {
    assert ([x] + s)[0] == x && ([x] + s)[1..] == s;
  }

  /** The step of `InserirEmpatados` past a head with more votes than `c`: the head and `c`
      cannot both have `v` votes, so their order among the tied candidates does not matter. */
  lemma InserirEmpatadosPasso(c: Candidato, ds: seq<Candidato>, v: int)
    requires ds != [] && c.votos < ds[0].votos
    requires Empatados(Inserir(c, ds[1..]), v) == (if c.votos == v then [c] else []) + Empatados(ds[1..], v)
    ensures Empatados(Inserir(c, ds), v) == (if c.votos == v then [c] else []) + Empatados(ds, v)
  {
    var t := Inserir(c, ds[1..]);
    var er := Empatados(ds[1..], v);
    assert Inserir(c, ds) == [ds[0]] + t;
    EmpatadosCons(ds[0], t, v);
    if ds[0].votos == v {
      assert Empatados(t, v) == er;
      assert Empatados(ds, v) == [ds[0]] + er;
    } else {
      assert Empatados(Inserir(c, ds), v) == Empatados(t, v);
      assert Empatados(ds, v) == er;
    }
  }

  lemma {:induction false} InserirEmpatados(c: Candidato, ds: seq<Candidato>, v: int)
    ensures Empatados(Inserir(c, ds), v) == (if c.votos == v then [c] else []) + Empatados(ds, v)
    decreases |ds|
  {
    if ds == [] || c.votos >= ds[0].votos {
      EmpatadosCons(c, ds, v);
    } else {
      InserirEmpatados(c, ds[1..], v);
      InserirEmpatadosPasso(c, ds, v);
    }
  }

  /** Stability: among the candidates with the same number of votes, the ranking keeps list order. */
  lemma {:induction false} OrdenarEstavel(s: seq<Candidato>, v: int)
    ensures Empatados(Ordenar(s), v) == Empatados(s, v)
  {
    if s != [] {
      OrdenarEstavel(s[1..], v);
      InserirEmpatados(s[0], Ordenar(s[1..]), v);
    }
  }

  lemma {:induction false} EmpatadosPrimeiro(s: seq<Candidato>, k: nat)
    requires k < |s| && forall j :: 0 <= j < k ==> s[j].votos != s[k].votos
    ensures Empatados(s, s[k].votos) != [] && Empatados(s, s[k].votos)[0] == s[k]
  {
    if k > 0 {
      assert s[1..][k - 1] == s[k];
      EmpatadosPrimeiro(s[1..], k - 1);
    }
  }

  /** The head of the ranking is the winner chosen when the ministry is finished:
      the first candidate with the most votes. */
  lemma OrdenarPrimeiroEhVencedor(s: seq<Candidato>)
    requires s != []
    ensures Ordenar(s)[0] == Vencedor(s).value
  {
    var k := VencedorIndice(s);
    var v := s[k].votos;
    var r := Ordenar(s);
    OrdenarDecrescente(s);
    assert r[0] in multiset(s);
    assert s[k] in multiset(r);
    assert r[0].votos == v;
    OrdenarEstavel(s, v);
    EmpatadosPrimeiro(s, k);
    assert r == [r[0]] + r[1..];
    assert Empatados(r, v)[0] == r[0];
  }

  /** `calcularPorcentagem`: 0 when the total is 0, else round(100 * votos / total)
      (for a negative total, the same as round(-100 * votos / -total)). */
  function Porcentagem(votos: int, total: int): (p: int)
    ensures total == 0 ==> p == 0
    ensures total > 0 ==> 2 * total * p <= 200 * votos + total < 2 * total * (p + 1)
  {
    if total == 0 then 0
    else if total > 0 then ArredondarDivisao(100 * votos, total)
    else ArredondarDivisao(-100 * votos, -total)
  }

  /** A share of a non-negative total lies between 0 and 100; all of it is 100. */
  lemma PorcentagemLimites(votos: int, total: int)
    requires 0 <= votos <= total
    ensures 0 <= Porcentagem(votos, total) <= 100
    ensures total > 0 && votos == total ==> Porcentagem(votos, total) == 100
  {
    if total > 0 {
      var p := Porcentagem(votos, total);
      if p < 0 {
        MultiplicarMonotono(2 * total, p + 1, 0);
      }
      if p > 100 {
        MultiplicarMonotono(2 * total, 101, p);
      }
      if votos == total {
        ArredondarDivisaoExata(100, total);
      }
    }
  }

  /** Each candidate's votes are part of the total. */
  lemma {:induction false} VotosAteTotal(cs: seq<Candidato>, i: nat)
    requires VotosValidos(cs) && i < |cs|
    ensures 0 <= cs[i].votos <= TotalVotos(cs)
  {
    var n := |cs| - 1;
    var p := cs[..n];
    assert VotosValidos(p) by {
      forall j | 0 <= j < |p| ensures p[j].votos >= 0 {
        assert p[j] == cs[j];
      }
    }
    if i < n {
      assert p[i] == cs[i];
      VotosAteTotal(p, i);
    }
  }

  /** Every percentage shown for a candidate lies between 0 and 100. */
  lemma PorcentagemDeCandidato(cs: seq<Candidato>, i: nat)
    requires VotosValidos(cs) && i < |cs|
    ensures 0 <= Porcentagem(cs[i].votos, TotalVotos(cs)) <= 100
  {
    VotosAteTotal(cs, i);
    PorcentagemLimites(cs[i].votos, TotalVotos(cs));
  }
}
