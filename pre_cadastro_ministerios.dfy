/** The pre-registration screen: per selected ministry, the current leadership,
    the people interested in the post, and the seat count of the ministries
    whose number of seats is chosen by the church. The context functions it
    calls (`setLiderancaAtual`, `adicionarInteressado`, `setNumeroVagas`) are
    not part of this model: a handler returns the call it would make. */
module PreCadastroMinisterios {
  import opened Wrappers
  import opened Text
  import opened Sequencias
  import opened Ministerios

  /** The leadership recorded for a ministry. */
  datatype LiderancaAtual = LiderancaAtual(diretor: string, diretorAssociado: Option<string>)

  /** What `getPreCadastro(id)` returns for a ministry. */
  datatype PreCadastro = PreCadastro(liderancaAtual: LiderancaAtual, interessados: seq<string>)

  /** The three text inputs kept per ministry. */
  datatype Entradas = Entradas(diretor: string, diretorAssociado: string, interessado: string)

  const EntradasVazias: Entradas := Entradas("", "", "")

  /** The call `setLiderancaAtual(ministerioId, diretor, diretorAssociado)`. */
  datatype ChamadaLideranca = ChamadaLideranca(ministerioId: string, diretor: string, diretorAssociado: string)

  /** The call `adicionarInteressado(ministerioId, nome)`. */
  datatype ChamadaInteressado = ChamadaInteressado(ministerioId: string, nome: string)

  const MsgDigiteNome: string := "Digite um nome"
  const MsgMinimo: string := "Mínimo 3 caracteres"
  const MsgMaximo: string := "Máximo 100 caracteres"
  const MsgInteressadoDuplicado: string := "Interessado já adicionado"

  /** The name checks of this screen: not blank, then at least 3, then at most 100
      characters after trimming; the first failing check gives the message. */
  function ValidarNome(nome: string): (r: Option<string>)
    ensures r.None? <==> 3 <= |Trim(nome)| <= 100
    ensures r == Some(MsgDigiteNome) <==> Blank(nome)
    ensures r == Some(MsgMinimo) <==> 0 < |Trim(nome)| < 3
    ensures r == Some(MsgMaximo) <==> |Trim(nome)| > 100
  {
    var t := Trim(nome);
    if t == [] then Some(MsgDigiteNome)
    else if |t| < 3 then Some(MsgMinimo)
    else if |t| > 100 then Some(MsgMaximo)
    else None
  }

  /** The message `handleSalvarLideranca` reports for the typed leadership, if any:
      the director's problem first, then the associate's, who is checked only when typed. */
  function ErroLideranca(e: Entradas): (r: Option<string>)
    ensures r.None? <==> 3 <= |Trim(e.diretor)| <= 100 && (Blank(e.diretorAssociado) || 3 <= |Trim(e.diretorAssociado)| <= 100)
    ensures ValidarNome(e.diretor).Some? ==> r == Some("Diretor: " + ValidarNome(e.diretor).value)
    ensures ValidarNome(e.diretor).None? && !Blank(e.diretorAssociado) && ValidarNome(e.diretorAssociado).Some? ==>
      r == Some("Diretor Associado: " + ValidarNome(e.diretorAssociado).value)
  {
    match ValidarNome(e.diretor)
    case Some(m) => Some("Diretor: " + m)
    case None =>
      if Trim(e.diretorAssociado) == [] then None
      else
        match ValidarNome(e.diretorAssociado)
        case Some(m) => Some("Diretor Associado: " + m)
        case None => None
  }

  /** The call `handleSalvarLideranca` makes for the typed leadership: none when
      `ErroLideranca` reports a problem, else both names trimmed. */
  function SalvarLideranca(id: string, e: Entradas): (r: Option<ChamadaLideranca>)
    ensures r.Some? <==> ErroLideranca(e).None?
    ensures r.Some? ==> r.value == ChamadaLideranca(id, Trim(e.diretor), Trim(e.diretorAssociado))
  {
    if ErroLideranca(e).Some? then None else Some(ChamadaLideranca(id, Trim(e.diretor), Trim(e.diretorAssociado)))
  }

  /** The text the error line shows after saving: `ErroLideranca`'s message, or "" when there is none. */
  function MensagemLideranca(e: Entradas): (m: string)
    ensures m == "" <==> ErroLideranca(e).None?
    ensures ErroLideranca(e).Some? ==> m == ErroLideranca(e).value
  {
    match ErroLideranca(e)
    case Some(msg) => msg
    case None => ""
  }

  /** The message `handleAdicionarInteressado` reports for the typed name, if any;
      the duplicate check compares the trimmed name exactly, case included. */
  function ErroInteressado(digitado: string, preCadastro: Option<PreCadastro>): (r: Option<string>)
    ensures r.None? <==> 3 <= |Trim(digitado)| <= 100 && !(preCadastro.Some? && Trim(digitado) in preCadastro.value.interessados)
    ensures ValidarNome(digitado).Some? ==> r == ValidarNome(digitado)
    ensures ValidarNome(digitado).None? && r.Some? ==> r == Some(MsgInteressadoDuplicado)
  {
    var nome := Trim(digitado);
    TrimIdempotent(digitado);
    match ValidarNome(nome)
    case Some(m) => Some(m)
    case None =>
      if preCadastro.Some? && nome in preCadastro.value.interessados then Some(MsgInteressadoDuplicado) else None
  }

  /** `ministeriosSelecionadosData`: the available ministries whose id was selected, in their order. */
  function SelecionadosData(disponiveis: seq<Ministerio>, selecionados: seq<string>): (r: seq<Ministerio>)
    ensures Subsequencia(r, disponiveis)
    ensures forall m :: m in r <==> m in disponiveis && m.id in selecionados
  {
    Filtrar(disponiveis, (m: Ministerio) => m.id in selecionados)
  }

  /** The ministries for which no associate director is asked. */
  const SemDiretorAssociado: seq<string> := ["anciao", "desbravadores", "aventureiros", "diaconos", "diaconisas"]

  function PossuiDiretorAssociado(m: Ministerio): (b: bool)
    ensures !b <==> (m.id == "anciao" || m.id == "desbravadores" || m.id == "aventureiros" ||
                     m.id == "diaconos" || m.id == "diaconisas")
  {
    m.id !in SemDiretorAssociado
  }

  /** Every ministry of the 'ministerio' category is asked for an associate, and has an associate seat. */
  lemma MinisteriaisPossuemDiretorAssociado(i: nat)
    requires i < |Catalogo| && Catalogo[i].categoria == Ministerial
    ensures PossuiDiretorAssociado(Catalogo[i])
    ensures Catalogo[i].cargos[1].tipo == DiretorAssociado
  {
    CatalogoMinisteriais();
    CatalogoClubes();
    CatalogoCategorias();
    CatalogoIdsDistintos();
    assert Catalogo[0].id == "anciao" && Catalogo[1].id == "diaconos" && Catalogo[2].id == "diaconisas";
    assert Catalogo[i].id != Catalogo[0].id && Catalogo[i].id != Catalogo[1].id && Catalogo[i].id != Catalogo[2].id;
  }

  /** The clubs are not asked for an associate although their entries have two associate seats. */
  lemma ClubesSemCampoDeAssociado(i: nat)
    requires i < |Catalogo| && Catalogo[i].categoria == Clube
    ensures !PossuiDiretorAssociado(Catalogo[i])
    ensures Catalogo[i].cargos[1].tipo == DiretorAssociado && Catalogo[i].cargos[2].tipo == DiretorAssociado
  {
    CatalogoClubes();
  }

  /** The ministries whose seat count is configurable. */
  const ComVagasConfiguraveisIds: seq<string> := ["anciao", "diaconos", "diaconisas"]

  /** `ministeriosComVagasConfiguraveis`: the selected ministries among anciao, diaconos and diaconisas, in order. */
  function ComVagasConfiguraveis(selecionados: seq<Ministerio>): (r: seq<Ministerio>)
    ensures Subsequencia(r, selecionados)
    ensures forall m :: m in r <==> m in selecionados && (m.id == "anciao" || m.id == "diaconos" || m.id == "diaconisas")
  {
    Filtrar(selecionados, (m: Ministerio) => m.id in ComVagasConfiguraveisIds)
  }

  /** The seat count stored from the number input: `parseInt(v) || 1`. */
  function VagasDoCampo(v: string): (n: int)
    ensures n != 0
  {
    match ParseInt(v)
    case None => 1
    case Some(k) => if k == 0 then 1 else k
  }

  /** Typing an integer stores it, except 0 which becomes 1; an empty field also gives 1. */
  lemma VagasDoCampoInteiro(k: int)
    ensures VagasDoCampo(IntToString(k)) == if k == 0 then 1 else k
  {
    ParseIntToString(k);
  }

  lemma VagasDoCampoVazio()
    ensures VagasDoCampo("") == 1
  {
  }

  class TelaPreCadastro {
    var inputs: map<string, Entradas>
    var erro: string
    var ministerioExpandido: Option<string>

    constructor()
      ensures inputs == map[] && erro == "" && ministerioExpandido == None
    {
      inputs := map[];
      erro := "";
      ministerioExpandido := None;
    }

    /** `inputs[id] || { diretor: '', diretorAssociado: '', interessado: '' }`. */
    function EntradasDe(id: string): (e: Entradas)
      reads this`inputs
      ensures id !in inputs ==> e == EntradasVazias
    {
      if id in inputs then inputs[id] else EntradasVazias
    }

    method AlterarDiretor(id: string, v: string)
      modifies this
      ensures inputs == old(inputs)[id := old(EntradasDe(id)).(diretor := v)]
      ensures erro == "" && ministerioExpandido == old(ministerioExpandido)
    {
      inputs := inputs[id := EntradasDe(id).(diretor := v)];
      erro := "";
    }

    method AlterarDiretorAssociado(id: string, v: string)
      modifies this
      ensures inputs == old(inputs)[id := old(EntradasDe(id)).(diretorAssociado := v)]
      ensures erro == "" && ministerioExpandido == old(ministerioExpandido)
    {
      inputs := inputs[id := EntradasDe(id).(diretorAssociado := v)];
      erro := "";
    }

    method AlterarInteressado(id: string, v: string)
      modifies this
      ensures inputs == old(inputs)[id := old(EntradasDe(id)).(interessado := v)]
      ensures erro == "" && ministerioExpandido == old(ministerioExpandido)
    {
      inputs := inputs[id := EntradasDe(id).(interessado := v)];
      erro := "";
    }

    /** The accordion header: opens the ministry, or closes it when it is the open one. */
    method AlternarExpandido(id: string)
      modifies this
      ensures ministerioExpandido == if old(ministerioExpandido) == Some(id) then None else Some(id)
      ensures inputs == old(inputs) && erro == old(erro)
    {
      if ministerioExpandido == Some(id) {
        ministerioExpandido := None;
      } else {
        ministerioExpandido := Some(id);
      }
    }

    /** Saves the leadership when `ErroLideranca` finds nothing; otherwise shows its message. */
    method HandleSalvarLideranca(id: string) returns (chamada: Option<ChamadaLideranca>)
      modifies this
      ensures inputs == old(inputs) && ministerioExpandido == old(ministerioExpandido)
      ensures chamada == SalvarLideranca(id, old(EntradasDe(id)))
      ensures erro == MensagemLideranca(old(EntradasDe(id)))
    {
      var input := EntradasDe(id);
      chamada := SalvarLideranca(id, input);
      erro := MensagemLideranca(input);
    }

    /** Adds an interested person when `ErroInteressado` finds nothing, and then
        clears that input; otherwise shows its message and changes no input. */
    method HandleAdicionarInteressado(id: string, preCadastro: Option<PreCadastro>) returns (chamada: Option<ChamadaInteressado>)
      modifies this
      ensures ministerioExpandido == old(ministerioExpandido)
      ensures chamada.Some? <==> ErroInteressado(old(EntradasDe(id)).interessado, preCadastro).None?
      ensures chamada.Some? ==>
        chamada.value == ChamadaInteressado(id, Trim(old(EntradasDe(id)).interessado)) &&
        inputs == old(inputs)[id := old(EntradasDe(id)).(interessado := "")] && erro == ""
      ensures chamada.None? ==>
        inputs == old(inputs) && Some(erro) == ErroInteressado(old(EntradasDe(id)).interessado, preCadastro)
    {
      var input := EntradasDe(id);
      var problema := ErroInteressado(input.interessado, preCadastro);
      if problema.Some? {
        MostrarErro(problema.value);
        chamada := None;
      } else {
        chamada := Some(ChamadaInteressado(id, Trim(input.interessado)));
        AlterarInteressado(id, "");
      }
    }

    /** Shows a message and changes no input. */
    method MostrarErro(m: string)
      modifies this
      ensures erro == m && inputs == old(inputs) && ministerioExpandido == old(ministerioExpandido)
    {
      erro := m;
    }
  }
}
