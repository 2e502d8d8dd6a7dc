/** The committee configuration screen: the category filter over the ministry
    list, the form that adds a custom department, and the guard on starting the
    committee. The context functions it calls (`adicionarDepartamentoPersonalizado`,
    `iniciarCronometroComissao`) and the church name and selection it reads are
    not part of this model: they are parameters, and a handler returns the call
    it would make. */
module ConfiguracaoComissao {
  import opened Wrappers
  import opened Text
  import opened Sequencias
  import opened Ministerios
  import opened VotacaoContext

  const Todos: string := "Todos"

  const MsgNomeDepartamento: string := "Digite o nome do departamento"
  const MsgDescricaoDepartamento: string := "Digite a descrição do departamento"
  const MsgVagasDepartamento: string := "Número de vagas deve ser entre 1 e 10"
  const MsgNomeIgreja: string := "Por favor, informe o nome da igreja"
  const MsgNenhumSelecionado: string := "Selecione pelo menos um ministério ou departamento"

  /** The category of every ministry, in list order. */
  function CategoriasDe(ms: seq<Ministerio>): (r: seq<string>)
    ensures |r| == |ms| && forall i :: 0 <= i < |ms| ==> r[i] == CategoriaTexto(ms[i].categoria)
  {
    seq(|ms|, i requires 0 <= i < |ms| => CategoriaTexto(ms[i].categoria))
  }

  /** `categorias`: "Todos" followed by the distinct categories in order of first occurrence. */
  function Categorias(ms: seq<Ministerio>): (r: seq<string>)
    ensures |r| >= 1 && r[0] == Todos
    ensures forall c :: c in r[1..] <==> exists i :: 0 <= i < |ms| && CategoriaTexto(ms[i].categoria) == c
    ensures forall i, j :: 1 <= i < j < |r| ==> r[i] != r[j]
    ensures OrdemDePrimeiraOcorrencia(r[1..], CategoriasDe(ms))
  {
    var d := SemRepetidos(CategoriasDe(ms));
    SemRepetidosOrdem(CategoriasDe(ms));
    assert ([Todos] + d)[1..] == d;
    forall c ensures c in d <==> exists i :: 0 <= i < |ms| && CategoriaTexto(ms[i].categoria) == c {
      if c in d {
        var i :| 0 <= i < |CategoriasDe(ms)| && CategoriasDe(ms)[i] == c;
      }
    }
    [Todos] + d
  }

  /** `ministeriosFiltrados`: everything for "Todos", otherwise the ministries of that category, in order. */
  function Filtrados(ms: seq<Ministerio>, filtro: string): (r: seq<Ministerio>)
    ensures filtro == Todos ==> r == ms
    ensures filtro != Todos ==> Subsequencia(r, ms) && forall m :: m in r <==> m in ms && CategoriaTexto(m.categoria) == filtro
  {
    if filtro == Todos then ms else Filtrar(ms, (m: Ministerio) => CategoriaTexto(m.categoria) == filtro)
  }

  /** Filtering by each category of the list splits it: every ministry is kept by exactly one real category. */
  lemma FiltradosParticao(ms: seq<Ministerio>, m: Ministerio, c: string)
    requires m in ms && c in Categorias(ms)[1..]
    ensures m in Filtrados(ms, c) <==> CategoriaTexto(m.categoria) == c
  {
    assert c != Todos by {
      var i :| 0 <= i < |ms| && CategoriaTexto(ms[i].categoria) == c;
    }
  }

  /** The message `handleAdicionarDepartamento` reports, checked in this order:
      blank name, blank description, seats outside 1..10. */
  function ErroDepartamento(nome: string, descricao: string, vagas: int): (r: Option<string>)
    ensures r.None? <==> !Blank(nome) && !Blank(descricao) && 1 <= vagas <= 10
    ensures r == Some(MsgNomeDepartamento) <==> Blank(nome)
    ensures r == Some(MsgDescricaoDepartamento) <==> !Blank(nome) && Blank(descricao)
    ensures r == Some(MsgVagasDepartamento) <==> !Blank(nome) && !Blank(descricao) && !(1 <= vagas <= 10)
  {
    if Trim(nome) == [] then Some(MsgNomeDepartamento)
    else if Trim(descricao) == [] then Some(MsgDescricaoDepartamento)
    else if vagas < 1 || vagas > 10 then Some(MsgVagasDepartamento)
    else None
  }

  /** The call `adicionarDepartamentoPersonalizado(nome, descricao, vagas)`. */
  datatype ChamadaDepartamento = ChamadaDepartamento(nome: string, descricao: string, vagas: int)

  /** The call `handleAdicionarDepartamento` makes, if any: the trimmed texts and the seats,
      exactly when `ErroDepartamento` finds nothing; the forwarded texts are then not blank. */
  function AdicionarDepartamento(nome: string, descricao: string, vagas: int): (r: Option<ChamadaDepartamento>)
    ensures r.Some? <==> ErroDepartamento(nome, descricao, vagas).None?
    ensures r.Some? ==> r.value == ChamadaDepartamento(Trim(nome), Trim(descricao), vagas)
    ensures r.Some? ==> r.value.nome != [] && r.value.descricao != [] && 1 <= r.value.vagas <= 10
  {
    if ErroDepartamento(nome, descricao, vagas).Some? then None
    else Some(ChamadaDepartamento(Trim(nome), Trim(descricao), vagas))
  }

  /** The text the error line shows after a rejected department: `ErroDepartamento`'s
      message, or "" when there is none. */
  function MensagemDepartamento(nome: string, descricao: string, vagas: int): (m: string)
    ensures m == "" <==> ErroDepartamento(nome, descricao, vagas).None?
    ensures ErroDepartamento(nome, descricao, vagas).Some? ==> m == ErroDepartamento(nome, descricao, vagas).value
  {
    match ErroDepartamento(nome, descricao, vagas)
    case Some(msg) => msg
    case None => ""
  }

  /** Both start buttons are enabled iff the church name is not blank and something is selected. */
  function PodeIniciar(nomeIgreja: string, selecionados: seq<string>): (b: bool)
    ensures b <==> Trim(nomeIgreja) != [] && |selecionados| > 0
  {
    !Blank(nomeIgreja) && |selecionados| != 0
  }

  /** The message `handleIniciarComissao` reports: blank church name first, then an empty selection. */
  function ErroIniciar(nomeIgreja: string, selecionados: seq<string>): (r: Option<string>)
    ensures r.None? <==> PodeIniciar(nomeIgreja, selecionados)
    ensures r == Some(MsgNomeIgreja) <==> Blank(nomeIgreja)
    ensures !Blank(nomeIgreja) && |selecionados| == 0 ==> r == Some(MsgNenhumSelecionado)
  {
    if Trim(nomeIgreja) == [] then Some(MsgNomeIgreja)
    else if |selecionados| == 0 then Some(MsgNenhumSelecionado)
    else None
  }

  /** `comissaoEmAndamento`: some ministry is finished or one is under way. */
  function ComissaoEmAndamento(rs: seq<Resultado>, atual: Option<Ministerio>): (b: bool)
    ensures b <==> rs != [] || atual.Some?
  {
    |rs| > 0 || atual.Some?
  }

  /** The start button's label. */
  function TextoBotao(rs: seq<Resultado>, atual: Option<Ministerio>): (t: string)
    ensures t == "Retomar Comissão" || t == "Iniciar Comissão"
    ensures t == "Retomar Comissão" <==> rs != [] || atual.Some?
  {
    if ComissaoEmAndamento(rs, atual) then "Retomar Comissão" else "Iniciar Comissão"
  }

  class TelaConfiguracao {
    var nomeDepartamento: string
    var descricaoDepartamento: string
    var vagasDepartamento: int
    var erro: string
    var filtroCategoria: string

    constructor()
      ensures nomeDepartamento == "" && descricaoDepartamento == "" && vagasDepartamento == 2
      ensures erro == "" && filtroCategoria == Todos
    {
      nomeDepartamento := "";
      descricaoDepartamento := "";
      vagasDepartamento := 2;
      erro := "";
      filtroCategoria := Todos;
    }

    method SelecionarFiltro(categoria: string)
      modifies this
      ensures filtroCategoria == categoria
      ensures nomeDepartamento == old(nomeDepartamento) && descricaoDepartamento == old(descricaoDepartamento)
      ensures vagasDepartamento == old(vagasDepartamento) && erro == old(erro)
    {
      filtroCategoria := categoria;
    }

    method AlterarNomeDepartamento(v: string)
      modifies this
      ensures nomeDepartamento == v && erro == ""
      ensures descricaoDepartamento == old(descricaoDepartamento) && vagasDepartamento == old(vagasDepartamento)
      ensures filtroCategoria == old(filtroCategoria)
    {
      nomeDepartamento := v;
      erro := "";
    }

    method AlterarDescricaoDepartamento(v: string)
      modifies this
      ensures descricaoDepartamento == v && erro == ""
      ensures nomeDepartamento == old(nomeDepartamento) && vagasDepartamento == old(vagasDepartamento)
      ensures filtroCategoria == old(filtroCategoria)
    {
      descricaoDepartamento := v;
      erro := "";
    }

    method AlterarVagasDepartamento(v: int)
      modifies this
      ensures vagasDepartamento == v && erro == ""
      ensures nomeDepartamento == old(nomeDepartamento) && descricaoDepartamento == old(descricaoDepartamento)
      ensures filtroCategoria == old(filtroCategoria)
    {
      vagasDepartamento := v;
      erro := "";
    }

    /** Accepts the department when `ErroDepartamento` finds nothing: forwards the trimmed
        texts and resets the form to ("", "", 2); otherwise shows the message. */
    method HandleAdicionarDepartamento() returns (chamada: Option<ChamadaDepartamento>)
      modifies this
      ensures filtroCategoria == old(filtroCategoria)
      ensures chamada == AdicionarDepartamento(old(nomeDepartamento), old(descricaoDepartamento), old(vagasDepartamento))
      ensures chamada.None? ==>
        erro == MensagemDepartamento(old(nomeDepartamento), old(descricaoDepartamento), old(vagasDepartamento)) &&
        nomeDepartamento == old(nomeDepartamento) && descricaoDepartamento == old(descricaoDepartamento) &&
        vagasDepartamento == old(vagasDepartamento)
      ensures chamada.Some? ==>
        nomeDepartamento == "" && descricaoDepartamento == "" && vagasDepartamento == 2 && erro == ""
    {
      chamada := AdicionarDepartamento(nomeDepartamento, descricaoDepartamento, vagasDepartamento);
      if chamada.None? {
        erro := MensagemDepartamento(nomeDepartamento, descricaoDepartamento, vagasDepartamento);
      } else {
        LimparDepartamento();
      }
    }

    /** Resets the department form to ("", "", 2) and clears the error. */
    method LimparDepartamento()
      modifies this
      ensures nomeDepartamento == "" && descricaoDepartamento == "" && vagasDepartamento == 2 && erro == ""
      ensures filtroCategoria == old(filtroCategoria)
    {
      nomeDepartamento := "";
      descricaoDepartamento := "";
      vagasDepartamento := 2;
      erro := "";
    }

    /** Starting: returns whether `iniciarCronometroComissao` is called, which happens
        exactly when the start buttons are enabled; otherwise shows the message. */
    method HandleIniciarComissao(nomeIgreja: string, selecionados: seq<string>) returns (iniciar: bool)
      modifies this
      ensures iniciar <==> PodeIniciar(nomeIgreja, selecionados)
      ensures !iniciar ==> erro == ErroIniciar(nomeIgreja, selecionados).value
      ensures iniciar ==> erro == old(erro)
      ensures nomeDepartamento == old(nomeDepartamento) && descricaoDepartamento == old(descricaoDepartamento)
      ensures vagasDepartamento == old(vagasDepartamento) && filtroCategoria == old(filtroCategoria)
    {
      var problema := ErroIniciar(nomeIgreja, selecionados);
      if problema.Some? {
        erro := problema.value;
        return false;
      }
      return true;
    }
  }
}
