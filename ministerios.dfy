/** The built-in ministry catalogue (`ministerios`) with its `Cargo` and
    `Ministerio` record types, a lookup by id (`ministerios.find`), and the
    structural facts the rest of the model relies on. */
module Ministerios {
  import opened Wrappers

  /** `Cargo.tipo`. */
  datatype TipoCargo = Principal | Diretor | DiretorAssociado | Secretario | Tesoureiro | Anciao

  /** One electable seat of a ministry. */
  datatype Cargo = Cargo(id: string, nome: string, tipo: TipoCargo)

  /** `Ministerio.categoria`: 'lideranca' | 'ministerio' | 'clube' | 'personalizado'. */
  datatype Categoria = Lideranca | Ministerial | Clube | Personalizado

  /** A ministry; the description and long explanation texts are not modelled. */
  datatype Ministerio = Ministerio(id: string, nome: string, categoria: Categoria, cargos: seq<Cargo>)

  /** The string the source stores for a category. */
  function CategoriaTexto(c: Categoria): (s: string)
    ensures |s| > 0
  {
    match c
    case Lideranca => "lideranca"
    case Ministerial => "ministerio"
    case Clube => "clube"
    case Personalizado => "personalizado"
  }

  /** Distinct categories are stored as distinct strings. */
  lemma CategoriaTextoInjetiva(c: Categoria, d: Categoria)
    ensures CategoriaTexto(c) == CategoriaTexto(d) <==> c == d
  {
  }

  /** The catalogue, in the source's order. */
  const Catalogo: seq<Ministerio> := [
    Ministerio("anciao", "Ancionato", Lideranca, [
        Cargo("anciao-1", "Primeiro Ancião", Anciao),
        Cargo("anciao-2", "Segundo Ancião", Anciao),
        Cargo("anciao-3", "Terceiro Ancião", Anciao),
        Cargo("anciao-4", "Quarto Ancião", Anciao)
      ]),
    Ministerio("diaconos", "Diáconos", Lideranca, [
        Cargo("diacono-principal", "Primeiro Diácono", Principal)
      ]),
    Ministerio("diaconisas", "Diaconisas", Lideranca, [
        Cargo("diaconisa-principal", "Primeira Diaconisa", Principal)
      ]),
    Ministerio("secretaria", "Secretaria", Lideranca, [
        Cargo("secretario-1", "Primeiro Secretário(a)", Secretario),
        Cargo("secretario-2", "Segundo Secretário(a)", Secretario)
      ]),
    Ministerio("tesouraria", "Tesouraria", Lideranca, [
        Cargo("tesoureiro-1", "Primeiro Tesoureiro(a)", Tesoureiro),
        Cargo("tesoureiro-2", "Segundo Tesoureiro(a)", Tesoureiro)
      ]),
    Ministerio("escola-sabatina", "Escola Sabatina", Ministerial, [
        Cargo("es-diretor", "Diretor(a) de Escola Sabatina", Diretor),
        Cargo("es-associado", "Diretor(a) Associado(a) de Escola Sabatina", DiretorAssociado)
      ]),
    Ministerio("ministerio-pessoal", "Ministério Pessoal", Ministerial, [
        Cargo("mp-diretor", "Diretor(a) de Ministério Pessoal", Diretor),
        Cargo("mp-associado", "Diretor(a) Associado(a) de Ministério Pessoal", DiretorAssociado)
      ]),
    Ministerio("jovens", "Ministério Jovem", Ministerial, [
        Cargo("jovens-diretor", "Diretor(a) de Jovens", Diretor),
        Cargo("jovens-associado", "Diretor(a) Associado(a) de Jovens", DiretorAssociado)
      ]),
    Ministerio("aventureiros", "Clube de Aventureiros", Clube, [
        Cargo("aventureiros-diretor", "Diretor(a) de Aventureiros", Diretor),
        Cargo("aventureiros-associado-1", "Diretor(a) Associado(a) de Aventureiros 1", DiretorAssociado),
        Cargo("aventureiros-associado-2", "Diretor(a) Associado(a) de Aventureiros 2", DiretorAssociado)
      ]),
    Ministerio("desbravadores", "Clube de Desbravadores", Clube, [
        Cargo("desbravadores-diretor", "Diretor(a) de Desbravadores", Diretor),
        Cargo("desbravadores-associado-1", "Diretor(a) Associado(a) de Desbravadores 1", DiretorAssociado),
        Cargo("desbravadores-associado-2", "Diretor(a) Associado(a) de Desbravadores 2", DiretorAssociado)
      ]),
    Ministerio("criancas", "Ministério da Criança", Ministerial, [
        Cargo("criancas-diretor", "Diretor(a) de Ministério da Criança", Diretor),
        Cargo("criancas-associado", "Diretor(a) Associado(a) de Ministério da Criança", DiretorAssociado)
      ]),
    Ministerio("adolescentes", "Ministério do Adolescente", Ministerial, [
        Cargo("adolescentes-diretor", "Diretor(a) de Adolescentes", Diretor),
        Cargo("adolescentes-associado", "Diretor(a) Associado(a) de Adolescentes", DiretorAssociado)
      ]),
    Ministerio("mulheres", "Ministério da Mulher", Ministerial, [
        Cargo("mulheres-diretora", "Diretora de Ministério da Mulher", Diretor),
        Cargo("mulheres-associada", "Diretora Associada de Ministério da Mulher", DiretorAssociado)
      ]),
    Ministerio("homens", "Ministério do Homem", Ministerial, [
        Cargo("homens-diretor", "Diretor de Ministério do Homem", Diretor),
        Cargo("homens-associado", "Diretor Associado de Ministério do Homem", DiretorAssociado)
      ]),
    Ministerio("familia", "Ministério da Família", Ministerial, [
        Cargo("familia-diretor", "Diretor(a) de Ministério da Família", Diretor),
        Cargo("familia-associado", "Diretor(a) Associado(a) de Ministério da Família", DiretorAssociado)
      ]),
    Ministerio("musica", "Ministério da Música", Ministerial, [
        Cargo("musica-diretor", "Diretor(a) de Música", Diretor),
        Cargo("musica-associado", "Diretor(a) Associado(a) de Música", DiretorAssociado)
      ]),
    Ministerio("comunicacao", "Ministério da Comunicação", Ministerial, [
        Cargo("comunicacao-diretor", "Diretor(a) de Comunicação", Diretor),
        Cargo("comunicacao-associado", "Diretor(a) Associado(a) de Comunicação", DiretorAssociado)
      ]),
    Ministerio("mordomia", "Mordomia Cristã", Ministerial, [
        Cargo("mordomia-diretor", "Diretor(a) de Mordomia Cristã", Diretor),
        Cargo("mordomia-associado", "Diretor(a) Associado(a) de Mordomia Cristã", DiretorAssociado)
      ]),
    Ministerio("publicacoes", "Ministério de Publicações", Ministerial, [
        Cargo("publicacoes-diretor", "Diretor(a) de Publicações", Diretor),
        Cargo("publicacoes-associado", "Diretor(a) Associado(a) de Publicações", DiretorAssociado)
      ]),
    Ministerio("educacao", "Ministério da Educação", Ministerial, [
        Cargo("educacao-diretor", "Diretor(a) de Educação", Diretor),
        Cargo("educacao-associado", "Diretor(a) Associado(a) de Educação", DiretorAssociado)
      ]),
    Ministerio("saude", "Ministério da Saúde", Ministerial, [
        Cargo("saude-diretor", "Diretor(a) de Ministério da Saúde", Diretor),
        Cargo("saude-associado", "Diretor(a) Associado(a) de Ministério da Saúde", DiretorAssociado)
      ]),
    Ministerio("servico-comunitario", "Ação Solidária Adventista (ASA)", Ministerial, [
        Cargo("asa-diretor", "Diretor(a) de ASA", Diretor),
        Cargo("asa-associado", "Diretor(a) Associado(a) de ASA", DiretorAssociado)
      ]),
    Ministerio("liberdade-religiosa", "Liberdade Religiosa", Ministerial, [
        Cargo("liberdade-diretor", "Diretor(a) de Liberdade Religiosa", Diretor),
        Cargo("liberdade-associado", "Diretor(a) Associado(a) de Liberdade Religiosa", DiretorAssociado)
      ]),
    Ministerio("ministerio-universitario", "Ministério Universitário", Ministerial, [
        Cargo("universitario-diretor", "Diretor(a) de Ministério Universitário", Diretor),
        Cargo("universitario-associado", "Diretor(a) Associado(a) de Ministério Universitário", DiretorAssociado)
      ]),
    Ministerio("recepcao", "Ministério de Recepção", Ministerial, [
        Cargo("recepcao-diretor", "Diretor(a) de Recepção", Diretor),
        Cargo("recepcao-associado", "Diretor(a) Associado(a) de Recepção", DiretorAssociado)
      ])
  ]

  /** `ms.find(m => m.id === id)`: the first ministry with that id. */
  function Buscar(ms: seq<Ministerio>, id: string): (r: Option<Ministerio>)
    ensures r.None? <==> forall i :: 0 <= i < |ms| ==> ms[i].id != id
    ensures r.Some? ==> r.value.id == id && r.value in ms
    ensures r.Some? ==> exists i :: 0 <= i < |ms| && ms[i] == r.value && forall j :: 0 <= j < i ==> ms[j].id != id
  {
    if ms == [] then None
    else if ms[0].id == id then Some(ms[0])
    else
      var r := Buscar(ms[1..], id);
      assert forall j :: 1 <= j < |ms| ==> ms[j] == ms[1..][j - 1];
      r
  }

  /** With distinct ids, the lookup returns exactly the entry at that index. */
  lemma BuscarPorIndice(ms: seq<Ministerio>, i: nat)
    requires i < |ms|
    requires forall a, b :: 0 <= a < b < |ms| ==> ms[a].id != ms[b].id
    ensures Buscar(ms, ms[i].id) == Some(ms[i])
  {
  }

  lemma CatalogoTamanho()
    ensures |Catalogo| == 25
  {
  }

  /** Ministry ids are pairwise distinct. */
  lemma CatalogoIdsDistintos()
    ensures forall i, j :: 0 <= i < j < |Catalogo| ==> Catalogo[i].id != Catalogo[j].id
  {
  }

  /** An id resolves exactly when it is one of the catalogue's ids, and then to that entry. */
  lemma CatalogoBuscar(i: nat)
    requires i < |Catalogo|
    ensures Buscar(Catalogo, Catalogo[i].id) == Some(Catalogo[i])
  {
    CatalogoIdsDistintos();
    BuscarPorIndice(Catalogo, i);
  }

  /** Every built-in ministry has at least one seat. */
  lemma CatalogoCargosNaoVazios()
    ensures forall i :: 0 <= i < |Catalogo| ==> |Catalogo[i].cargos| >= 1
  {
  }

  // The cargo ids of the catalogue in order, split in two halves, and the
  // index at which each ministry's cargos start; only used to prove
  // CatalogoIdsCargosDistintos.
  ghost const IdsCargosA: seq<string> := [
      "anciao-1", "anciao-2", "anciao-3", "anciao-4", "diacono-principal", "diaconisa-principal",
      "secretario-1", "secretario-2", "tesoureiro-1", "tesoureiro-2", "es-diretor", "es-associado",
      "mp-diretor", "mp-associado", "jovens-diretor", "jovens-associado", "aventureiros-diretor",
      "aventureiros-associado-1", "aventureiros-associado-2", "desbravadores-diretor",
      "desbravadores-associado-1", "desbravadores-associado-2", "criancas-diretor",
      "criancas-associado", "adolescentes-diretor", "adolescentes-associado"
  ]
  ghost const IdsCargosB: seq<string> := [
      "mulheres-diretora", "mulheres-associada", "homens-diretor", "homens-associado",
      "familia-diretor", "familia-associado", "musica-diretor", "musica-associado",
      "comunicacao-diretor", "comunicacao-associado", "mordomia-diretor", "mordomia-associado",
      "publicacoes-diretor", "publicacoes-associado", "educacao-diretor", "educacao-associado",
      "saude-diretor", "saude-associado", "asa-diretor", "asa-associado", "liberdade-diretor",
      "liberdade-associado", "universitario-diretor", "universitario-associado",
      "recepcao-diretor", "recepcao-associado"
  ]
  ghost const InicioCargos: seq<nat> := [0, 4, 5, 6, 8, 10, 12, 14, 16, 19, 22, 24, 26, 28, 30, 32, 34, 36, 38, 40, 42, 44, 46, 48, 50, 52]

  lemma IdsCargosADistintos()
    ensures forall i, j :: 0 <= i < j < |IdsCargosA| ==> IdsCargosA[i] != IdsCargosA[j]
  {
  }

  lemma IdsCargosBDistintos()
    ensures forall i, j :: 0 <= i < j < |IdsCargosB| ==> IdsCargosB[i] != IdsCargosB[j]
  {
  }

  lemma IdsCargosABDisjuntos()
    ensures forall i, j :: 0 <= i < |IdsCargosA| && 0 <= j < |IdsCargosB| ==> IdsCargosA[i] != IdsCargosB[j]
  {
  }

  lemma InicioCargosPassos()
    ensures |InicioCargos| == |Catalogo| + 1 && InicioCargos[0] == 0
    ensures InicioCargos[12] == |IdsCargosA| && InicioCargos[|Catalogo|] == |IdsCargosA| + |IdsCargosB|
    ensures forall i :: 0 <= i < |Catalogo| ==> InicioCargos[i + 1] == InicioCargos[i] + |Catalogo[i].cargos|
  {
  }

  lemma InicioCargosCrescente()
    ensures forall i :: 0 <= i < |InicioCargos| - 1 ==> InicioCargos[i] < InicioCargos[i + 1]
  {
  }

  lemma {:induction false} InicioCargosMonotono(i: nat, j: nat)
    requires i <= j < |InicioCargos|
    ensures InicioCargos[i] <= InicioCargos[j]
    decreases j - i
  {
    InicioCargosCrescente();
    if i < j { InicioCargosMonotono(i + 1, j); }
  }

  /** The flat position of cargo `a` of ministry `i`. */
  ghost function PosicaoCargo(i: nat, a: nat): nat
    requires i < |Catalogo|
  {
    InicioCargos[i] + a
  }

  /** The cargo id at a flat position. */
  ghost function IdCargoNaPosicao(p: nat): string
    requires p < |IdsCargosA| + |IdsCargosB|
  {
    if p < |IdsCargosA| then IdsCargosA[p] else IdsCargosB[p - |IdsCargosA|]
  }

  lemma PosicaoCargoInjetiva(i: nat, a: nat, j: nat, b: nat)
    requires i < |Catalogo| && a < |Catalogo[i].cargos|
    requires j < |Catalogo| && b < |Catalogo[j].cargos|
    requires (i, a) != (j, b)
    ensures PosicaoCargo(i, a) != PosicaoCargo(j, b)
  {
    InicioCargosPassos();
    if i < j { InicioCargosMonotono(i + 1, j); }
    else if j < i { InicioCargosMonotono(j + 1, i); }
  }

  // The same facts for every cargo, one block of ministries at a time.
  lemma IdCargoPosicaoBloco1(i: nat, a: nat)
    requires 0 <= i < 4 && a < |Catalogo[i].cargos|
    ensures PosicaoCargo(i, a) < |IdsCargosA| + |IdsCargosB|
    ensures Catalogo[i].cargos[a].id == IdCargoNaPosicao(PosicaoCargo(i, a))
  {
  }

  lemma IdCargoPosicaoBloco2(i: nat, a: nat)
    requires 4 <= i < 8 && a < |Catalogo[i].cargos|
    ensures PosicaoCargo(i, a) < |IdsCargosA| + |IdsCargosB|
    ensures Catalogo[i].cargos[a].id == IdCargoNaPosicao(PosicaoCargo(i, a))
  {
  }

  lemma IdCargoPosicaoBloco3(i: nat, a: nat)
    requires 8 <= i < 12 && a < |Catalogo[i].cargos|
    ensures PosicaoCargo(i, a) < |IdsCargosA| + |IdsCargosB|
    ensures Catalogo[i].cargos[a].id == IdCargoNaPosicao(PosicaoCargo(i, a))
  {
  }

  lemma IdCargoPosicaoBloco4(i: nat, a: nat)
    requires 12 <= i < 14 && a < |Catalogo[i].cargos|
    ensures PosicaoCargo(i, a) < |IdsCargosA| + |IdsCargosB|
    ensures Catalogo[i].cargos[a].id == IdCargoNaPosicao(PosicaoCargo(i, a))
  {
  }

  lemma IdCargoPosicaoBloco5(i: nat, a: nat)
    requires 14 <= i < 16 && a < |Catalogo[i].cargos|
    ensures PosicaoCargo(i, a) < |IdsCargosA| + |IdsCargosB|
    ensures Catalogo[i].cargos[a].id == IdCargoNaPosicao(PosicaoCargo(i, a))
  {
  }

  lemma IdCargoPosicaoBloco6(i: nat, a: nat)
    requires 16 <= i < 20 && a < |Catalogo[i].cargos|
    ensures PosicaoCargo(i, a) < |IdsCargosA| + |IdsCargosB|
    ensures Catalogo[i].cargos[a].id == IdCargoNaPosicao(PosicaoCargo(i, a))
  {
  }

  lemma IdCargoPosicaoBloco7(i: nat, a: nat)
    requires 20 <= i < 25 && a < |Catalogo[i].cargos|
    ensures PosicaoCargo(i, a) < |IdsCargosA| + |IdsCargosB|
    ensures Catalogo[i].cargos[a].id == IdCargoNaPosicao(PosicaoCargo(i, a))
  {
  }

  lemma IdCargoPosicao(i: nat, a: nat)
    requires i < |Catalogo| && a < |Catalogo[i].cargos|
    ensures PosicaoCargo(i, a) < |IdsCargosA| + |IdsCargosB|
    ensures Catalogo[i].cargos[a].id == IdCargoNaPosicao(PosicaoCargo(i, a))
  {
    if i < 4 {
      IdCargoPosicaoBloco1(i, a);
    } else if i < 8 {
      IdCargoPosicaoBloco2(i, a);
    } else if i < 12 {
      IdCargoPosicaoBloco3(i, a);
    } else if i < 14 {
      IdCargoPosicaoBloco4(i, a);
    } else if i < 16 {
      IdCargoPosicaoBloco5(i, a);
    } else if i < 20 {
      IdCargoPosicaoBloco6(i, a);
    } else {
      IdCargoPosicaoBloco7(i, a);
    }
  }

  lemma IdCargoNaPosicaoInjetiva(p: nat, q: nat)
    requires p < |IdsCargosA| + |IdsCargosB| && q < |IdsCargosA| + |IdsCargosB| && p != q
    ensures IdCargoNaPosicao(p) != IdCargoNaPosicao(q)
  {
    IdsCargosADistintos();
    IdsCargosBDistintos();
    IdsCargosABDisjuntos();
  }

  /** Cargo ids are distinct across the whole catalogue. */
  lemma CatalogoIdsCargosDistintos(i: nat, a: nat, j: nat, b: nat)
    requires i < |Catalogo| && a < |Catalogo[i].cargos|
    requires j < |Catalogo| && b < |Catalogo[j].cargos|
    requires (i, a) != (j, b)
    ensures Catalogo[i].cargos[a].id != Catalogo[j].cargos[b].id
  {
    PosicaoCargoInjetiva(i, a, j, b);
    IdCargoPosicao(i, a);
    IdCargoPosicao(j, b);
    IdCargoNaPosicaoInjetiva(PosicaoCargo(i, a), PosicaoCargo(j, b));
  }

  /** 'anciao' (the first entry) is a leadership ministry with four seats, all of tipo anciao. */
  lemma CatalogoAnciao()
    ensures Buscar(Catalogo, "anciao") == Some(Catalogo[0])
    ensures Catalogo[0].categoria == Lideranca && |Catalogo[0].cargos| == 4
    ensures forall a :: 0 <= a < 4 ==> Catalogo[0].cargos[a].tipo == Anciao
  {
    var m := Catalogo[0];
    assert m.id == "anciao";
    assert Buscar(Catalogo, m.id) == Some(m);
  }

  /** 'diaconos' and 'diaconisas' each have exactly one seat, of tipo principal. */
  lemma CatalogoDiaconos()
    ensures Catalogo[1].id == "diaconos" && |Catalogo[1].cargos| == 1 && Catalogo[1].cargos[0].tipo == Principal
    ensures Catalogo[2].id == "diaconisas" && |Catalogo[2].cargos| == 1 && Catalogo[2].cargos[0].tipo == Principal
  {
  }

  /** 'aventureiros' and 'desbravadores' are the only clubs; each has a
      director seat followed by two associate-director seats. */
  lemma CatalogoClubes()
    ensures forall i :: 0 <= i < |Catalogo| ==>
      (Catalogo[i].categoria == Clube <==> Catalogo[i].id == "aventureiros" || Catalogo[i].id == "desbravadores")
    ensures forall i :: 0 <= i < |Catalogo| && Catalogo[i].categoria == Clube ==>
      |Catalogo[i].cargos| == 3 && Catalogo[i].cargos[0].tipo == Diretor &&
      Catalogo[i].cargos[1].tipo == DiretorAssociado && Catalogo[i].cargos[2].tipo == DiretorAssociado
  {
  }

  /** Every 'ministerio'-category entry has a director seat and then an associate-director seat. */
  lemma CatalogoMinisteriais()
    ensures forall i :: 0 <= i < |Catalogo| && Catalogo[i].categoria == Ministerial ==>
      |Catalogo[i].cargos| == 2 && Catalogo[i].cargos[0].tipo == Diretor && Catalogo[i].cargos[1].tipo == DiretorAssociado
  {
  }

  /** The first five entries, and only they, are leadership; no built-in entry is 'personalizado'. */
  lemma CatalogoCategorias()
    ensures forall i :: 0 <= i < |Catalogo| ==> (Catalogo[i].categoria == Lideranca <==> i < 5)
    ensures forall i :: 0 <= i < |Catalogo| ==> Catalogo[i].categoria != Personalizado
  {
  }
}
