/** The nomination form (stage 2): name validation, the suggestion lists built
    from the pre-registration and from the names of earlier ministries, and the
    guard on moving to the voting stage. The seat count (`getNumeroVagas`) and the
    pre-registration (`getPreCadastro`) come from context functions that are not
    part of this model; they are parameters here. */
module FormularioIndicacao {
  import opened Wrappers
  import opened Text
  import opened Sequencias
  import opened VotacaoContext
  import PC = PreCadastroMinisterios

  const MsgDigiteNome: string := "Por favor, digite um nome"
  const MsgMinimo: string := "O nome deve ter pelo menos 3 caracteres"
  const MsgMaximo: string := "O nome é muito longo (máximo 100 caracteres)"
  const MsgDuplicado: string := "Este candidato já foi adicionado"
  const MsgSemCandidatos: string := "Adicione pelo menos 1 candidato antes de prosseguir"

  /** `jaAdicionado(nome)`: some candidate has this name, ignoring case. */
  predicate JaAdicionado(cs: seq<Candidato>, nome: string)
  {
    exists i :: 0 <= i < |cs| && EqualsIgnoreCase(cs[i].nome, nome)
  }

  /** The duplicate check ignores case: a name and its lower-cased form are already
      present for the same candidates. */
  lemma JaAdicionadoIgnoraCaixa(cs: seq<Candidato>, nome: string)
    ensures JaAdicionado(cs, ToLower(nome)) <==> JaAdicionado(cs, nome)
    ensures forall i :: 0 <= i < |cs| ==> (EqualsIgnoreCase(cs[i].nome, ToLower(nome)) <==> EqualsIgnoreCase(cs[i].nome, nome))
  {
  }

  /** `validarNome`: empty, then shorter than 3, then longer than 100, then a
      case-insensitive duplicate; the first failing check gives the message. */
  function ValidarNome(nome: string, cs: seq<Candidato>): (r: Option<string>)
    ensures r.None? <==> 3 <= |Trim(nome)| <= 100 && !JaAdicionado(cs, Trim(nome))
  {
    var t := Trim(nome);
    if t == [] then Some(MsgDigiteNome)
    else if |t| < 3 then Some(MsgMinimo)
    else if |t| > 100 then Some(MsgMaximo)
    else if JaAdicionado(cs, t) then Some(MsgDuplicado)
    else None
  }

  /** Which message `ValidarNome` reports: each one exactly when its check is the first to fail. */
  lemma ValidarNomeMensagens(nome: string, cs: seq<Candidato>)
    ensures ValidarNome(nome, cs) == Some(MsgDigiteNome) <==> Blank(nome)
    ensures ValidarNome(nome, cs) == Some(MsgMinimo) <==> 0 < |Trim(nome)| < 3
    ensures ValidarNome(nome, cs) == Some(MsgMaximo) <==> |Trim(nome)| > 100
    ensures ValidarNome(nome, cs) == Some(MsgDuplicado) <==> 3 <= |Trim(nome)| <= 100 && JaAdicionado(cs, Trim(nome))
  {
  }

  /** No two candidates have names that are equal ignoring case. */
  predicate NomesUnicosSemCaixa(cs: seq<Candidato>)
  {
    forall i, j :: 0 <= i < j < |cs| ==> !EqualsIgnoreCase(cs[i].nome, cs[j].nome)
  }

  /** A name that passes `ValidarNome` can be appended, trimmed, without creating a duplicate. */
  lemma AdicionarValidoPreservaUnicidade(cs: seq<Candidato>, nome: string, id: string)
    requires NomesUnicosSemCaixa(cs) && ValidarNome(nome, cs).None?
    ensures NomesUnicosSemCaixa(cs + [Candidato(id, Trim(nome), 0)])
  {
    var r := cs + [Candidato(id, Trim(nome), 0)];
    forall i, j | 0 <= i < j < |r| ensures !EqualsIgnoreCase(r[i].nome, r[j].nome) {
      if j == |cs| {
        assert r[i] == cs[i];
        assert !EqualsIgnoreCase(cs[i].nome, Trim(nome));
      } else {
        assert r[i] == cs[i] && r[j] == cs[j];
      }
    }
  }

  /** The names of a candidate list, in order. */
  function NomesDe(cs: seq<Candidato>): (r: seq<string>)
    ensures |r| == |cs| && forall i :: 0 <= i < |cs| ==> r[i] == cs[i].nome
  {
    seq(|cs|, i requires 0 <= i < |cs| => cs[i].nome)
  }

  /** Every candidate name of every result, results first to last, candidates in order. */
  function NomesDosResultados(rs: seq<Resultado>): seq<string>
  {
    if rs == [] then [] else NomesDosResultados(rs[..|rs| - 1]) + NomesDe(rs[|rs| - 1].candidatos)
  }

  /** A name occurs in `NomesDosResultados` exactly when some candidate of some result carries it. */
  lemma {:induction false} NomesDosResultadosMembro(rs: seq<Resultado>, x: string)
    ensures x in NomesDosResultados(rs) <==>
      exists i, j :: 0 <= i < |rs| && 0 <= j < |rs[i].candidatos| && rs[i].candidatos[j].nome == x
  {
    if rs != [] {
      var n := |rs| - 1;
      var p := rs[..n];
      NomesDosResultadosMembro(p, x);
      var cs := rs[n].candidatos;
      if x in NomesDosResultados(rs) {
        if x in NomesDosResultados(p) {
          var i, j :| 0 <= i < |p| && 0 <= j < |p[i].candidatos| && p[i].candidatos[j].nome == x;
          assert rs[i] == p[i];
        } else {
          assert x in NomesDe(cs);
          var j :| 0 <= j < |cs| && NomesDe(cs)[j] == x;
          assert rs[n].candidatos[j].nome == x;
        }
      } else {
        forall i, j | 0 <= i < |rs| && 0 <= j < |rs[i].candidatos| ensures rs[i].candidatos[j].nome != x {
          if i < n {
            assert rs[i] == p[i];
          } else {
            assert NomesDe(cs)[j] in NomesDe(cs);
          }
        }
      }
    }
  }

  lemma NomesDePrefixo(cs: seq<Candidato>, j: nat)
    requires j < |cs|
    ensures NomesDe(cs[..j + 1]) == NomesDe(cs[..j]) + [cs[j].nome]
  {
  }

  lemma NomesDosResultadosPrefixo(rs: seq<Resultado>, i: nat)
    requires i < |rs|
    ensures NomesDosResultados(rs[..i + 1]) == NomesDosResultados(rs[..i]) + NomesDe(rs[i].candidatos)
  {
    assert rs[..i + 1][..i] == rs[..i];
  }

  /** Seen-name step of the inner loop: the distinct names grow by the next name exactly when it is new. */
  lemma SemRepetidosPasso(antes: seq<string>, cs: seq<Candidato>, j: nat)
    requires j < |cs|
    ensures SemRepetidos(antes + NomesDe(cs[..j + 1])) ==
      var d := SemRepetidos(antes + NomesDe(cs[..j]));
      if cs[j].nome in d then d else d + [cs[j].nome]
  {
    var vistos := antes + NomesDe(cs[..j]);
    NomesDePrefixo(cs, j);
    assert antes + NomesDe(cs[..j + 1]) == vistos + [cs[j].nome];
    SemRepetidosAnexar(vistos, cs[j].nome);
  }

  /** The `Set` of earlier candidate names filled in nested loops, as an array:
      the distinct names of `NomesDosResultados(rs)` in order of first occurrence. */
  method NomesDoHistorico(rs: seq<Resultado>) returns (nomes: seq<string>)
    ensures nomes == SemRepetidos(NomesDosResultados(rs))
    ensures forall x :: x in nomes <==> x in NomesDosResultados(rs)
    ensures forall i, j :: 0 <= i < j < |nomes| ==> nomes[i] != nomes[j]
    ensures OrdemDePrimeiraOcorrencia(nomes, NomesDosResultados(rs))
  {
    nomes := [];
    var i := 0;
    while i < |rs|
      invariant 0 <= i <= |rs|
      invariant nomes == SemRepetidos(NomesDosResultados(rs[..i]))
    {
      var cs := rs[i].candidatos;
      ghost var antes := NomesDosResultados(rs[..i]);
      var j := 0;
      assert antes + NomesDe(cs[..0]) == antes;
      while j < |cs|
        invariant 0 <= j <= |cs|
        invariant nomes == SemRepetidos(antes + NomesDe(cs[..j]))
      {
        SemRepetidosPasso(antes, cs, j);
        if cs[j].nome !in nomes {
          nomes := nomes + [cs[j].nome];
        }
        j := j + 1;
      }
      assert cs[..j] == cs;
      NomesDosResultadosPrefixo(rs, i);
      i := i + 1;
    }
    assert rs[..i] == rs;
    SemRepetidosOrdem(NomesDosResultados(rs));
  }

  /** `liderancaDisponivel.diretor`: the recorded director, unless empty or already a candidate. */
  function DiretorDisponivel(l: PC.LiderancaAtual, cs: seq<Candidato>): (r: Option<string>)
    ensures r.Some? <==> l.diretor != "" && !JaAdicionado(cs, l.diretor)
    ensures r.Some? ==> r.value == l.diretor
  {
    if l.diretor != "" && !JaAdicionado(cs, l.diretor) then Some(l.diretor) else None
  }

  /** `liderancaDisponivel.diretorAssociado`: the recorded associate, unless absent, empty or already a candidate. */
  function AssociadoDisponivel(l: PC.LiderancaAtual, cs: seq<Candidato>): (r: Option<string>)
    ensures r.Some? <==> l.diretorAssociado.Some? && l.diretorAssociado.value != "" && !JaAdicionado(cs, l.diretorAssociado.value)
    ensures r.Some? ==> r == l.diretorAssociado
  {
    match l.diretorAssociado
    case None => None
    case Some(a) => if a != "" && !JaAdicionado(cs, a) then Some(a) else None
  }

  /** `interessadosDisponiveis` and `historicoDisponivel`: the names not yet among the candidates, in order. */
  function Disponiveis(nomes: seq<string>, cs: seq<Candidato>): (r: seq<string>)
    ensures Subsequencia(r, nomes)
    ensures forall x :: x in r <==> x in nomes && !JaAdicionado(cs, x)
  {
    Filtrar(nomes, (x: string) => !JaAdicionado(cs, x))
  }

  /** `temSugestoes`: some suggestion box has something to show. */
  function TemSugestoes(l: PC.LiderancaAtual, interessados: seq<string>, historico: seq<string>, cs: seq<Candidato>): (b: bool)
    ensures b <==> (DiretorDisponivel(l, cs).Some? || AssociadoDisponivel(l, cs).Some? ||
                    (exists x :: x in interessados && !JaAdicionado(cs, x)) ||
                    (exists x :: x in historico && !JaAdicionado(cs, x)))
  {
    var di := Disponiveis(interessados, cs);
    var dh := Disponiveis(historico, cs);
    assert di != [] ==> di[0] in di;
    assert dh != [] ==> dh[0] in dh;
    DiretorDisponivel(l, cs).Some? || AssociadoDisponivel(l, cs).Some? || |di| > 0 || |dh| > 0
  }

  /** The history chips: the first five available names. */
  function ChipsHistorico(h: seq<string>): (r: seq<string>)
    ensures |r| <= 5 && |r| <= |h| && r == h[..|r|]
    ensures |r| == 5 || r == h
  {
    if |h| <= 5 then h else h[..5]
  }

  /** The "+k mais" label: how many available names are not shown as chips. */
  function MaisHistorico(h: seq<string>): (k: Option<nat>)
    ensures k.None? <==> |h| <= 5
    ensures k.Some? ==> k.value > 0 && |ChipsHistorico(h)| + k.value == |h|
  {
    if |h| > 5 then Some(|h| - 5) else None
  }

  /** The shortfall warning and the "enough candidates" notice: with at least one
      candidate exactly one of them is shown, and with none only the second may be. */
  function AvisoPoucosCandidatos(n: nat, vagas: int): (b: bool)
    ensures b <==> 0 < n < vagas
    ensures n > 0 ==> (b <==> !CandidatosSuficientes(n, vagas))
  {
    n < vagas && n > 0
  }

  function CandidatosSuficientes(n: nat, vagas: int): bool
  {
    n >= vagas
  }

  /** The `window.confirm` question asked when the candidate count differs from the seat count. */
  function PerguntaVagas(n: nat, vagas: int): string
  {
    PerguntaAbre + IntToString(n) + PerguntaMeio + IntToString(vagas) + PerguntaFecha
  }

  const PerguntaAbre: string := "Atenção!\n\nNúmero de candidatos ("
  const PerguntaMeio: string := ") é diferente do número de vagas ("
  const PerguntaFecha: string := ").\n\nDeseja continuar mesmo assim?"

  /** `parseInt` reads `x` right after `p` in `p + x + resto` when `resto` does not
      start with a digit. */
  lemma NumeroLidoApos(p: string, x: int, resto: string)
    requires resto == [] || !IsDigit(resto[0])
    ensures (p + IntToString(x) + resto)[|p|..] == IntToString(x) + resto
    ensures ParseInt((p + IntToString(x) + resto)[|p|..]) == Some(x)
  {
    assert (p + IntToString(x) + resto)[|p|..] == IntToString(x) + resto;
    ParseIntComResto(x, resto);
  }

  /** In `p + x + m + b + f`, with `m` not starting with a digit, `parseInt` reads `x`
      right after `p`. */
  lemma PrimeiroNumeroLido(p: string, x: int, m: string, b: string, f: string)
    requires m != [] && !IsDigit(m[0])
    ensures ParseInt((p + IntToString(x) + m + b + f)[|p|..]) == Some(x)
  {
    var a := IntToString(x);
    Associativa(p + a, m + b, f);
    Associativa(p + a, m, b);
    Associativa(p, a, m + b + f);
    assert (m + b + f)[0] == m[0];
    NumeroLidoApos(p, x, m + b + f);
  }

  /** In `p + a + m + y + f`, with `f` not starting with a digit, `parseInt` reads `y`
      right after `m`. */
  lemma SegundoNumeroLido(p: string, a: string, m: string, y: int, f: string)
    requires f == [] || !IsDigit(f[0])
    ensures ParseInt((p + a + m + IntToString(y) + f)[|p + a + m|..]) == Some(y)
  {
    NumeroLidoApos(p + a + m, y, f);
  }

  /** The question shows the candidate count: `parseInt` reads it right after the
      opening text. */
  lemma PerguntaVagasMostraCandidatos(n: nat, vagas: int)
    ensures ParseInt(PerguntaVagas(n, vagas)[|PerguntaAbre|..]) == Some(n)
  {
    assert PerguntaMeio[0] == ')';
    PrimeiroNumeroLido(PerguntaAbre, n, PerguntaMeio, IntToString(vagas), PerguntaFecha);
  }

  /** The question shows the number of seats: `parseInt` reads it right after the
      middle text. */
  lemma PerguntaVagasMostraVagas(n: nat, vagas: int)
    ensures ParseInt(PerguntaVagas(n, vagas)[|PerguntaAbre + IntToString(n) + PerguntaMeio|..]) == Some(vagas)
  {
    assert PerguntaFecha[0] == ')';
    SegundoNumeroLido(PerguntaAbre, IntToString(n), PerguntaMeio, vagas, PerguntaFecha);
  }

  class Formulario {
    const ctx: Votacao
    var nomeInput: string
    var erro: string
    var liderancaAtual: PC.LiderancaAtual
    var interessados: seq<string>
    var historico: seq<string>

    predicate Valid()
      reads this, ctx
    {
      ctx.Valid()
    }

    /** The form renders only for a selected ministry in stage 2. */
    function Visivel(): (b: bool)
      reads this, ctx
      ensures b ==> ctx.etapaAtual == 2
    {
      ctx.MinisterioAtual().Some? && ctx.etapaAtual == 2
    }

    constructor(ctx: Votacao)
      requires ctx.Valid()
      ensures this.ctx == ctx && Valid()
      ensures nomeInput == "" && erro == "" && liderancaAtual == PC.LiderancaAtual("", None)
      ensures interessados == [] && historico == []
    {
      this.ctx := ctx;
      nomeInput := "";
      erro := "";
      liderancaAtual := PC.LiderancaAtual("", None);
      interessados := [];
      historico := [];
    }

    /** The effect that loads the suggestions when a ministry is current; `preCadastro`
        is what `getPreCadastro` returns for it. */
    method CarregarSugestoes(preCadastro: Option<PC.PreCadastro>)
      requires Valid()
      modifies this
      ensures Valid() && nomeInput == old(nomeInput) && erro == old(erro)
      ensures ctx.MinisterioAtual().None? ==>
        liderancaAtual == old(liderancaAtual) && interessados == old(interessados) && historico == old(historico)
      ensures ctx.MinisterioAtual().Some? ==>
        liderancaAtual == (if preCadastro.Some? then preCadastro.value.liderancaAtual else PC.LiderancaAtual("", None)) &&
        interessados == (if preCadastro.Some? then preCadastro.value.interessados else []) &&
        historico == SemRepetidos(NomesDosResultados(ctx.resultados))
    {
      if ctx.MinisterioAtual().Some? {
        if preCadastro.Some? {
          liderancaAtual := preCadastro.value.liderancaAtual;
          interessados := preCadastro.value.interessados;
        } else {
          liderancaAtual := PC.LiderancaAtual("", None);
          interessados := [];
        }
        historico := NomesDoHistorico(ctx.resultados);
      }
    }

    /** Typing in the name field also clears the error. */
    method AlterarNome(v: string)
      modifies this
      ensures nomeInput == v && erro == ""
      ensures liderancaAtual == old(liderancaAtual) && interessados == old(interessados) && historico == old(historico)
    {
      nomeInput := v;
      erro := "";
    }

    /** Clicking a suggestion copies it into the name field. */
    method HandleSugestaoClick(nome: string)
      modifies this
      ensures nomeInput == nome && erro == old(erro)
      ensures liderancaAtual == old(liderancaAtual) && interessados == old(interessados) && historico == old(historico)
    {
      nomeInput := nome;
    }

    /** The add button is enabled iff the field is not blank. */
    function PodeAdicionar(): (b: bool)
      reads this
      ensures b <==> Trim(nomeInput) != []
    {
      !Blank(nomeInput)
    }

    /** Forwards `nome.trim()` of a non-blank name (the context trims it again, which
        changes nothing), so the list gains the trimmed name with no votes; clears the field. */
    method AdicionarValidado(nome: string, agora: nat, sufixo: string)
      requires Valid() && !Blank(nome)
      modifies this, ctx
      ensures Valid()
      ensures liderancaAtual == old(liderancaAtual) && interessados == old(interessados) && historico == old(historico)
      ensures ctx.candidatos == old(ctx.candidatos) + [Candidato(IdNovoCandidato(agora, sufixo), Trim(nome), 0)]
      ensures ctx.ministerioAtualId == old(ctx.ministerioAtualId) && ctx.etapaAtual == old(ctx.etapaAtual)
      ensures ctx.resultados == old(ctx.resultados) && ctx.inicioEtapa == old(ctx.inicioEtapa)
      ensures nomeInput == "" && erro == ""
    {
      TrimIdempotent(nome);
      ctx.AdicionarCandidato(Trim(nome), agora, sufixo);
      nomeInput := "";
      erro := "";
    }

    /** Shows a validation message, leaving the field and the context as they are. */
    method MostrarErro(m: string)
      modifies this
      ensures erro == m && nomeInput == old(nomeInput)
      ensures liderancaAtual == old(liderancaAtual) && interessados == old(interessados) && historico == old(historico)
    {
      erro := m;
    }

    /** Adds the trimmed name when it is valid, then clears the field; otherwise shows the message. */
    method HandleAdicionar(agora: nat, sufixo: string)
      requires Valid()
      modifies this, ctx
      ensures Valid()
      ensures liderancaAtual == old(liderancaAtual) && interessados == old(interessados) && historico == old(historico)
      ensures ValidarNome(old(nomeInput), old(ctx.candidatos)).Some? ==>
        unchanged(ctx) && nomeInput == old(nomeInput) && erro == ValidarNome(old(nomeInput), old(ctx.candidatos)).value
      ensures ValidarNome(old(nomeInput), old(ctx.candidatos)).None? ==>
        ctx.candidatos == old(ctx.candidatos) + [Candidato(IdNovoCandidato(agora, sufixo), Trim(old(nomeInput)), 0)] &&
        ctx.ministerioAtualId == old(ctx.ministerioAtualId) && ctx.etapaAtual == old(ctx.etapaAtual) &&
        ctx.resultados == old(ctx.resultados) && ctx.inicioEtapa == old(ctx.inicioEtapa) &&
        nomeInput == "" && erro == ""
      ensures NomesUnicosSemCaixa(old(ctx.candidatos)) ==> NomesUnicosSemCaixa(ctx.candidatos)
    {
      var erroValidacao := ValidarNome(nomeInput, ctx.candidatos);
      if erroValidacao.Some? {
        MostrarErro(erroValidacao.value);
      } else {
        if NomesUnicosSemCaixa(ctx.candidatos) {
          AdicionarValidoPreservaUnicidade(ctx.candidatos, nomeInput, IdNovoCandidato(agora, sufixo));
        }
        AdicionarValidado(nomeInput, agora, sufixo);
      }
    }

    /** Moving to the voting stage: refused with no candidate; when the count differs
        from `numeroVagas` the question is returned and the move needs `confirmado`. */
    method HandleProximaEtapa(numeroVagas: int, confirmado: bool, agora: int) returns (pergunta: Option<string>)
      requires Valid()
      modifies this, ctx
      ensures Valid()
      ensures nomeInput == old(nomeInput)
      ensures liderancaAtual == old(liderancaAtual) && interessados == old(interessados) && historico == old(historico)
      ensures old(ctx.candidatos) == [] ==> pergunta.None? && erro == MsgSemCandidatos && unchanged(ctx)
      ensures old(ctx.candidatos) != [] ==>
        erro == old(erro) &&
        pergunta == (if |old(ctx.candidatos)| != numeroVagas then Some(PerguntaVagas(|old(ctx.candidatos)|, numeroVagas)) else None)
      ensures old(ctx.candidatos) != [] && |old(ctx.candidatos)| != numeroVagas && !confirmado ==> unchanged(ctx)
      ensures old(ctx.candidatos) != [] && (|old(ctx.candidatos)| == numeroVagas || confirmado) ==>
        ctx.candidatos == old(ctx.candidatos) && ctx.resultados == old(ctx.resultados) &&
        ctx.ministerioAtualId == old(ctx.ministerioAtualId) &&
        ctx.etapaAtual == (if old(ctx.etapaAtual) < 3 then old(ctx.etapaAtual) + 1 else 3) &&
        ctx.inicioEtapa == (if old(ctx.etapaAtual) < 3 then agora else old(ctx.inicioEtapa))
    {
      pergunta := None;
      var n := |ctx.candidatos|;
      if n == 0 {
        erro := MsgSemCandidatos;
        return;
      }
      if n != numeroVagas {
        pergunta := Some(PerguntaVagas(n, numeroVagas));
        if !confirmado {
          return;
        }
      }
      ctx.ProximaEtapa(agora);
    }

    /** "Back" returns to the explanation stage through `voltarEtapa`. */
    method HandleVoltarEtapa(agora: int)
      requires Valid()
      modifies ctx
      ensures Valid()
      ensures ctx.resultados == old(ctx.resultados)
      ensures old(ctx.etapaAtual) > 1 ==>
        ctx.etapaAtual == old(ctx.etapaAtual) - 1 && ctx.candidatos == old(ctx.candidatos) &&
        ctx.ministerioAtualId == old(ctx.ministerioAtualId) && ctx.inicioEtapa == agora
      ensures old(ctx.etapaAtual) == 1 ==>
        ctx.ministerioAtualId == None && ctx.etapaAtual == 1 && ctx.candidatos == [] &&
        ctx.inicioEtapa == old(ctx.inicioEtapa)
    {
      ctx.VoltarEtapa(agora);
    }
  }
}
