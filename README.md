# Committee voting wizard — a verified model

This project models the core of a web app that runs a church's nominating
committee. The committee goes through a fixed catalogue of 25 ministries, each
with its list of posts. For each ministry it runs three stages:

1. an explanation of the ministry;
2. the nomination of candidates;
3. the vote count, which ends with a stored result.

The model covers the following:

- **The provider state machine.** It tracks the current ministry, the stage,
  the candidate list, the results and the stage start time
  (`VotacaoContext.Votacao`).
- **The voting screen's undo history.**
- **The screens around the voting.** These are the nomination forms, the
  pre-registration screen, the committee configuration, the ministry picker,
  the finalisation dialog, the live counter, the voting controls, the
  explanation dialog and the progress panel.
- **The two reports posted to a web form.**

A screen whose handlers update component state is a class with `modifies`
clauses. The rules it renders from are functions, and the properties are
lemmas. The clock (`agora`), the random part of a new candidate's id, the
browser's confirmation dialogs (`confirmado`) and the context functions whose
bodies are not part of this model are all parameters. A handler that would
call such a function returns the call it would make.

Notable behaviours of the code:

- **Progress and the time estimate.** Both divide by the whole 25-entry
  catalogue, not by the ministries chosen for the committee.
- **Re-selecting a finished ministry.** This is allowed, so results can
  outnumber the catalogue. Then the pending count of the progress panel goes
  below zero, and the picker's "Finalizados (n)" button counts results, not
  ministries.
- **The vote history is not cleared when a ministry is selected.** It
  belongs to the voting screen, which clears it only when a ministry is
  finished.
- **Clubs show no associate-director field.** The catalogue gives clubs two
  associate-director posts (the help page, `src/pages/Ajuda.tsx:144`, says
  the same), but the pre-registration screen shows them no field to fill
  them in.

Modules, one per source file, plus three shared ones:

- `Wrappers`: `Option`.
- `Text`: trimming, lower-casing, the decimal printing and parsing of
  integers, `padStart` and JavaScript's `%`.
- `Sequencias`: `filter`, de-duplication in first-occurrence order, distinct
  keys.
- `Ministerios`: the catalogue.
- The component modules (`VotacaoContext`, `TelaPrincipalVotacao`,
  `FormularioIndicacao`, `FormularioIndicacaoV2`, `PreCadastroMinisterios`,
  `ConfiguracaoComissao`, `Ranking`, `ConfirmacaoFinalizacao`,
  `ContadorVotos`, `MinisterioSelector`, `ControlesVotacao`,
  `ComponenteExplicacao`, `ProgressBar`, `GoogleForms`). `Ranking` holds the
  sort and the percentage shared by the finalisation dialog and the counter.

## Model

| member | source | states |
|---|---|---|
| Sequencias.Filtrar | src/contexts/VotacaoContext.tsx:137 | `filter` keeps exactly the elements satisfying the predicate, as a subsequence of the input no longer than it, and everything when all satisfy it |
| Sequencias.FiltrarMultiplicidade | src/contexts/VotacaoContext.tsx:137 | each kept element occurs as often as in the input; the others not at all |
| Sequencias.SemRepetidos | src/components/FormularioIndicacao.tsx:44-51 | `Array.from(new Set(...))` holds exactly the input's elements, each once |
| Sequencias.SemRepetidosOrdem | src/components/FormularioIndicacao.tsx:44-51 | the de-duplicated list keeps the order of first occurrence |
| Sequencias.SemRepetidosAnexar | src/components/FormularioIndicacao.tsx:48 | adding to a set appends a new element and leaves an old one where it was |
| Sequencias.FiltrarChavesDistintas | src/components/MinisterioSelector.tsx:18-26 | filtering a list with distinct keys keeps them distinct |
| Sequencias.ChavesDistintasMultiplicidade | src/data/ministerios.ts:16-300 | in a list with distinct keys no element occurs twice |
| Text.Trim | src/contexts/VotacaoContext.tsx:124 | `trim()` gives an infix of the input with only whitespace before and after it, that neither starts nor ends with whitespace; it is empty iff the input is blank |
| Text.TrimIdempotent | src/contexts/VotacaoContext.tsx:128 | trimming twice is trimming once |
| Text.ToLowerIdempotent | src/components/FormularioIndicacao.tsx:70-72 | lower-casing twice is lower-casing once |
| Text.ToLower | src/components/FormularioIndicacao.tsx:71 | `toLowerCase()` keeps the length and lower-cases each character |
| Text.EqualsIgnoreCase | src/components/FormularioIndicacao.tsx:71 | two names are equal ignoring case iff they have the same length and agree character by character once lower-cased |
| Text.ParseNatToString | src/components/ControlesVotacao.tsx:41 | a printed number reads back as itself |
| Text.NatToStringInjective | src/components/ControlesVotacao.tsx:41 | different numbers print differently |
| Text.PadStart2 | src/components/ControlesVotacao.tsx:41 | `padStart(2, '0')` gives length max(2, n), with the text at the end and zeros before it |
| Text.ParseDigitsPadStart2 | src/components/ControlesVotacao.tsx:41 | padding a run of digits with zeros keeps its value |
| Text.JsRemainder | src/components/ComponenteExplicacao.tsx:67 | JavaScript's `%` by a positive divisor: Dafny's remainder for a non-negative dividend, otherwise in (-b, 0]; always differs from the dividend by a multiple of b |
| Text.ParseIntToString | src/components/PreCadastroMinisterios.tsx:136 | `parseInt` of a printed integer gives it back |
| Text.ParseInt | src/components/PreCadastroMinisterios.tsx:136 | `parseInt` of a text with no digit at all is NaN |
| Text.ParseIntComResto | src/components/PreCadastroMinisterios.tsx:136 | `parseInt` reads a printed integer back from the start of a text, whatever non-digit text follows |
| Ministerios.CatalogoTamanho | src/data/ministerios.ts:16-300 | the catalogue has 25 ministries |
| Ministerios.CatalogoIdsDistintos | src/data/ministerios.ts:16-300 | no two ministries share an id |
| Ministerios.CatalogoIdsCargosDistintos | src/data/ministerios.ts:16-300 | no two posts of the catalogue share an id |
| Ministerios.CatalogoCargosNaoVazios | src/data/ministerios.ts:16-300 | every ministry has at least one post |
| Ministerios.Buscar | src/contexts/VotacaoContext.tsx:89 | `find` by id: none iff no ministry has the id, else the first one with it |
| Ministerios.CatalogoBuscar | src/contexts/VotacaoContext.tsx:89 | every catalogue id resolves to its own entry |
| Ministerios.CatalogoAnciao | src/data/ministerios.ts:18-29 | the elders' ministry is leadership with four elder posts |
| Ministerios.CatalogoDiaconos | src/data/ministerios.ts:31-50 | deacons and deaconesses each have one principal post |
| Ministerios.CatalogoClubes | src/data/ministerios.ts:108-130 | the clubs are exactly the two youth clubs, each with a director and two associate posts |
| Ministerios.CatalogoMinisteriais | src/data/ministerios.ts:75-300 | every ministerial entry has a director post and an associate post |
| Ministerios.CatalogoCategorias | src/data/ministerios.ts:16-300 | exactly the first five entries are leadership; no entry is custom |
| Ministerios.CategoriaTextoInjetiva | src/data/ministerios.ts:7-14 | the category codes are distinct |
| VotacaoContext.ArredondarDivisao | src/contexts/VotacaoContext.tsx:69 | `Math.round(a / b)` for b > 0 is the integer nearest to a/b, halves upward |
| VotacaoContext.ArredondarDivisaoExata | src/contexts/VotacaoContext.tsx:69 | an exact quotient is not moved by rounding |
| VotacaoContext.ArredondarDivisaoMonotona | src/contexts/VotacaoContext.tsx:69 | rounding a quotient is monotone in the dividend |
| VotacaoContext.IndiceCandidato | src/contexts/VotacaoContext.tsx:143-147 | the position of the first candidate with the id, or -1 when none has it |
| VotacaoContext.BuscarCandidato | src/components/TelaPrincipalVotacao.tsx:38 | `find`: none iff no candidate has the id, else the first listed candidate with it |
| VotacaoContext.VotosAposAdicionarVoto | src/contexts/VotacaoContext.tsx:141-149 | a +1 vote raises only that candidate's count, by one, and only when listed |
| VotacaoContext.VotosAposRemoverVoto | src/contexts/VotacaoContext.tsx:152-160 | removing a vote lowers only that candidate's count, and only from above 0 |
| VotacaoContext.VotosAposZerar | src/contexts/VotacaoContext.tsx:163-171 | zeroing sets only that candidate's count to 0 |
| VotacaoContext.RemoverVotoDesfazAdicionar | src/contexts/VotacaoContext.tsx:141-160 | a vote followed by its removal restores the list |
| VotacaoContext.OperacoesPreservamVotosValidos | src/contexts/VotacaoContext.tsx:136-171 | no list operation makes a count negative |
| VotacaoContext.OperacoesPreservamIdsUnicos | src/contexts/VotacaoContext.tsx:136-171 | no list operation makes two candidates share an id |
| VotacaoContext.SemCandidato | src/contexts/VotacaoContext.tsx:136-138 | removal drops every candidate with that id and keeps the others |
| VotacaoContext.TotalAposAdicionarVoto | src/components/TelaPrincipalVotacao.tsx:79 | a +1 vote raises the total by one exactly when the candidate is listed |
| VotacaoContext.TotalAposRemoverVoto | src/components/TelaPrincipalVotacao.tsx:79 | removing a vote lowers the total by one exactly when that candidate had a vote |
| VotacaoContext.TotalAposZerar | src/components/TelaPrincipalVotacao.tsx:79 | zeroing lowers the total by that candidate's votes |
| VotacaoContext.TotalZeroSemVotos | src/components/TelaPrincipalVotacao.tsx:58-63 | the total is 0 iff every candidate has 0 votes |
| VotacaoContext.TotalVotos | src/components/TelaPrincipalVotacao.tsx:79 | the `reduce` total is never negative when no count is |
| VotacaoContext.ComVotoAdicionado | src/contexts/VotacaoContext.tsx:141-149 | the `map` keeps every candidate's id and name, in order |
| VotacaoContext.ComVotoRemovido | src/contexts/VotacaoContext.tsx:152-160 | the `map` keeps every candidate's id and name, in order |
| VotacaoContext.ComVotosZerados | src/contexts/VotacaoContext.tsx:163-171 | the `map` keeps every candidate's id and name, in order |
| VotacaoContext.IdNovoCandidatoInjetivo | src/contexts/VotacaoContext.tsx:127 | two new ids are equal iff they were built from the same time and the same random part |
| VotacaoContext.MaisVotado | src/contexts/VotacaoContext.tsx:178-180 | the strict-`>` fold returns its seed or a listed candidate, with at least the seed's votes |
| VotacaoContext.MaisVotadoIndice | src/contexts/VotacaoContext.tsx:178-180 | the fold keeps its seed unless some candidate beats it; it returns the first candidate with the most votes |
| VotacaoContext.Vencedor | src/contexts/VotacaoContext.tsx:178-180 | the winner is none iff there are no candidates, else a listed candidate |
| VotacaoContext.VencedorIndice | src/contexts/VotacaoContext.tsx:178-180 | the winner is the first candidate with the maximal count |
| VotacaoContext.VencedorEhPrimeiroMaisVotado | src/contexts/VotacaoContext.tsx:178-180 | any first-maximal candidate is the winner |
| VotacaoContext.MinisterioDoId | src/contexts/VotacaoContext.tsx:64-66 | `ministerioAtual`: the catalogue entry with the stored id, or none |
| VotacaoContext.NovoResultado | src/contexts/VotacaoContext.tsx:177-191 | the result snapshots the ministry and candidates and rounds the elapsed seconds |
| VotacaoContext.NovoResultadoVencedor | src/contexts/VotacaoContext.tsx:178-188 | the stored winner is the name of the first candidate with the most votes |
| VotacaoContext.NovoResultadoSemCandidatos | src/contexts/VotacaoContext.tsx:178-188 | with no candidates no winner is stored |
| VotacaoContext.NovoResultadoCargo | src/contexts/VotacaoContext.tsx:185-186 | the stored post is the ministry's first post |
| VotacaoContext.ProgressoGeralQuatroPorCento | src/contexts/VotacaoContext.tsx:69 | each result adds 4 points; 100 iff the results number 25 |
| VotacaoContext.ProgressoGeral | src/contexts/VotacaoContext.tsx:69 | the progress is never negative |
| VotacaoContext.TempoEstimado | src/contexts/VotacaoContext.tsx:72-80 | 0 with no results; otherwise the integer nearest to total time × remaining / results, halves upward |
| VotacaoContext.TempoEstimadoConstante | src/contexts/VotacaoContext.tsx:72-80 | with equal durations d the estimate is d per remaining ministry |
| VotacaoContext.TempoEstimadoConcluido | src/contexts/VotacaoContext.tsx:72-80 | with 25 results the estimate is 0 |
| VotacaoContext.TempoTotalEntre | src/contexts/VotacaoContext.tsx:75 | with every duration in lo..hi the `reduce` total lies between lo and hi times the results |
| VotacaoContext.MediaEscaladaEntre | src/contexts/VotacaoContext.tsx:76-79 | the rounded average times the remaining count stays within the duration bounds times that count |
| VotacaoContext.TempoEstimadoEntre | src/contexts/VotacaoContext.tsx:72-80 | with every duration in lo..hi the estimate lies between lo and hi per remaining ministry (bounds swapped when more than 25 are finished) |
| VotacaoContext.Votacao.constructor | src/contexts/VotacaoContext.tsx:55-61 | start state: no ministry, stage 1, no candidates, no results |
| VotacaoContext.Votacao.MinisterioAtual | src/contexts/VotacaoContext.tsx:64-66 | the current ministry, if any, has the stored id |
| VotacaoContext.Votacao.SelecionarMinisterio | src/contexts/VotacaoContext.tsx:88-96 | a catalogue id becomes current at stage 1 with no candidates; any other id changes nothing |
| VotacaoContext.Votacao.ProximaEtapa | src/contexts/VotacaoContext.tsx:82-103 | the stage goes up by one below 3 and restarts the stage clock; at 3 nothing changes |
| VotacaoContext.Votacao.VoltarEtapa | src/contexts/VotacaoContext.tsx:106-113 | the stage goes down above 1; at 1 the ministry is cancelled |
| VotacaoContext.Votacao.CancelarMinisterio | src/contexts/VotacaoContext.tsx:116-120 | no ministry, stage 1, no candidates; the results are kept |
| VotacaoContext.Votacao.AdicionarCandidato | src/contexts/VotacaoContext.tsx:123-133 | a blank name changes nothing; otherwise exactly one candidate with the trimmed name and 0 votes is appended |
| VotacaoContext.Votacao.RemoverCandidato | src/contexts/VotacaoContext.tsx:136-138 | the candidates with that id are dropped; nothing else changes |
| VotacaoContext.Votacao.AdicionarVoto | src/contexts/VotacaoContext.tsx:141-149 | only the list changes, by `ComVotoAdicionado` |
| VotacaoContext.Votacao.RemoverVoto | src/contexts/VotacaoContext.tsx:152-160 | only the list changes, by `ComVotoRemovido` |
| VotacaoContext.Votacao.ZerarVotosCandidato | src/contexts/VotacaoContext.tsx:163-171 | only the list changes, by `ComVotosZerados` |
| VotacaoContext.Votacao.FinalizarMinisterio | src/contexts/VotacaoContext.tsx:174-197 | no-op without a ministry; otherwise one result is appended and the ministry is cleared |
| VotacaoContext.Votacao.ResetarSistema | src/contexts/VotacaoContext.tsx:200-208 | only after confirmation: everything back to the start state |
| TelaPrincipalVotacao.VotarPreservaConsistencia | src/components/TelaPrincipalVotacao.tsx:25-27 | recording a vote for a listed candidate keeps every id in the history at most as often as its votes |
| TelaPrincipalVotacao.DesfazerSempreEfetivo | src/components/TelaPrincipalVotacao.tsx:34-44 | with a consistent, non-empty history the last id names a candidate with a vote |
| TelaPrincipalVotacao.DesfazerPreservaConsistencia | src/components/TelaPrincipalVotacao.tsx:37-43 | undo keeps the history consistent |
| TelaPrincipalVotacao.ZerarPreservaConsistencia | src/components/TelaPrincipalVotacao.tsx:46-56 | zeroing and purging the ids keeps the history consistent |
| TelaPrincipalVotacao.HistoricoNaoVazioTemVotos | src/components/TelaPrincipalVotacao.tsx:58-63 | a consistent, non-empty history means the total is positive |
| TelaPrincipalVotacao.TelaVotacao.HandleAdicionarVoto | src/components/TelaPrincipalVotacao.tsx:25-27 | the vote is forwarded and its id appended to the history |
| TelaPrincipalVotacao.TelaVotacao.HandleDesfazerVoto | src/components/TelaPrincipalVotacao.tsx:34-44 | an empty history changes nothing; otherwise exactly the last vote is undone when its candidate still has a vote |
| TelaPrincipalVotacao.TelaVotacao.HandleZerarCandidato | src/components/TelaPrincipalVotacao.tsx:46-56 | a listed candidate is zeroed and all its ids leave the history, the rest in order; an unknown id changes nothing |
| TelaPrincipalVotacao.TelaVotacao.HandleFinalizarVotacao | src/components/TelaPrincipalVotacao.tsx:58-67 | with no votes the alert is returned; otherwise the confirmation opens |
| TelaPrincipalVotacao.TelaVotacao.HandleConfirmarFinalizacao | src/components/TelaPrincipalVotacao.tsx:69-76 | with a current ministry its result is appended, the ministry cleared at stage 1 with no candidates and the stage clock restarted unless already at 1; without one nothing in the provider changes; the history is emptied and the dialog closed |
| FormularioIndicacao.ValidarNome | src/components/FormularioIndicacao.tsx:54-79 | no message iff 3..100 characters after trimming and no case-insensitive duplicate |
| FormularioIndicacao.ValidarNomeMensagens | src/components/FormularioIndicacao.tsx:54-79 | each message iff its check is the first to fail: blank, under 3, over 100, duplicate |
| FormularioIndicacao.JaAdicionadoIgnoraCaixa | src/components/FormularioIndicacao.tsx:138 | the duplicate check gives the same answer for a name and its lower-cased form |
| FormularioIndicacao.AdicionarValidoPreservaUnicidade | src/components/FormularioIndicacao.tsx:81-92 | adding a validated name keeps the names distinct ignoring case |
| FormularioIndicacao.NomesDosResultadosMembro | src/components/FormularioIndicacao.tsx:44-49 | a name is in the history list iff some earlier result has a candidate with it |
| FormularioIndicacao.NomesDoHistorico | src/components/FormularioIndicacao.tsx:44-51 | the nested loops give the earlier names once each, in order of first occurrence |
| FormularioIndicacao.DiretorDisponivel | src/components/FormularioIndicacao.tsx:140-143 | the director is suggested iff recorded and not yet a candidate |
| FormularioIndicacao.AssociadoDisponivel | src/components/FormularioIndicacao.tsx:140-143 | the associate is suggested iff recorded and not yet a candidate |
| FormularioIndicacao.Disponiveis | src/components/FormularioIndicacao.tsx:145-146 | the suggestions left are those not yet candidates, in order |
| FormularioIndicacao.TemSugestoes | src/components/FormularioIndicacao.tsx:148-149 | the suggestion panel shows iff some suggestion is left |
| FormularioIndicacao.ChipsHistorico | src/components/FormularioIndicacao.tsx:275 | at most the first five history names are shown |
| FormularioIndicacao.MaisHistorico | src/components/FormularioIndicacao.tsx:285-288 | "+n mais" appears iff more than five are left, and counts the hidden ones |
| FormularioIndicacao.AvisoPoucosCandidatos | src/components/FormularioIndicacao.tsx:346 | the shortfall warning shows iff 0 < candidates < seats, the complement of "enough" when there are candidates |
| FormularioIndicacao.Formulario.CarregarSugestoes | src/components/FormularioIndicacao.tsx:31-52 | loads the pre-registration or blanks, and the de-duplicated earlier names |
| FormularioIndicacao.Formulario.HandleAdicionar | src/components/FormularioIndicacao.tsx:81-92 | an invalid name shows its message; a valid one is appended trimmed and the field cleared |
| FormularioIndicacao.Formulario.HandleProximaEtapa | src/components/FormularioIndicacao.tsx:105-123 | refused with the message and nothing changed when there is no candidate; a count different from the seats asks the question and advances only when confirmed; advancing raises the stage below 3, restarts the stage clock and keeps candidates, ministry and results |
| FormularioIndicacao.PerguntaVagasMostraCandidatos | src/components/FormularioIndicacao.tsx:113-115 | the question shows the number of candidates, readable back after its opening text |
| FormularioIndicacao.PerguntaVagasMostraVagas | src/components/FormularioIndicacao.tsx:113-115 | the question shows the number of seats, readable back after the candidates' number and the middle text |
| FormularioIndicacao.Formulario.HandleVoltarEtapa | src/components/FormularioIndicacao.tsx:125-128 | above stage 1 the stage goes down with candidates and ministry kept and the stage clock restarted; at stage 1 the ministry is cancelled; results are kept |
| FormularioIndicacao.Formulario.PodeAdicionar | src/components/FormularioIndicacao.tsx:319 | the add button is enabled iff the field is not blank |
| FormularioIndicacao.Formulario.AlterarNome | src/components/FormularioIndicacao.tsx:307-310 | typing sets the field and clears the message; nothing else changes |
| FormularioIndicacao.Formulario.HandleSugestaoClick | src/components/FormularioIndicacao.tsx:101-103 | a suggestion fills the field; the message and the loaded suggestions are kept |
| FormularioIndicacaoV2.NumeroVagasCatalogo | src/components/FormularioIndicacaoV2.tsx:108-109 | every catalogue ministry has at least one seat, so neither banner shows with no candidate |
| FormularioIndicacaoV2.FormularioV2.CarregarSugestoes | src/components/FormularioIndicacaoV2.tsx:25-37 | the suggestions are the earlier names, de-duplicated |
| FormularioIndicacaoV2.FormularioV2.SugestoesDisponiveis | src/components/FormularioIndicacaoV2.tsx:110-112 | the suggestions not yet candidates, in order |
| FormularioIndicacaoV2.FormularioV2.HandleAdicionar | src/components/FormularioIndicacaoV2.tsx:66-77 | as in the first version |
| FormularioIndicacaoV2.FormularioV2.HandleProximaEtapa | src/components/FormularioIndicacaoV2.tsx:90-97 | refused with the message and nothing changed when there is no candidate; otherwise advances with no question, raising the stage below 3 and restarting the stage clock, candidates, ministry and results kept |
| FormularioIndicacaoV2.FormularioV2.HandleVoltarEtapa | src/components/FormularioIndicacaoV2.tsx:99-102 | as in the first version |
| FormularioIndicacaoV2.FormularioV2.AlterarNome | src/components/FormularioIndicacaoV2.tsx:192-195 | typing sets the field and clears the message; the suggestions are kept |
| FormularioIndicacaoV2.FormularioV2.HandleSugestaoClick | src/components/FormularioIndicacaoV2.tsx:86-88 | a suggestion fills the field; the message and the suggestions are kept |
| FormularioIndicacaoV2.FormularioV2.PodeAvancar | src/components/FormularioIndicacaoV2.tsx:290 | the advance button is enabled iff there is a candidate |
| FormularioIndicacaoV2.FormularioV2.PodeAdicionar | src/components/FormularioIndicacaoV2.tsx:204 | the add button is enabled iff the field is not blank |
| PreCadastroMinisterios.ValidarNome | src/components/PreCadastroMinisterios.tsx:26-34 | each message iff its check fails first; none iff 3..100 characters after trimming |
| PreCadastroMinisterios.ErroLideranca | src/components/PreCadastroMinisterios.tsx:36-51 | the director is checked first; the associate only when not blank; messages prefixed by the field |
| PreCadastroMinisterios.MensagemLideranca | src/components/PreCadastroMinisterios.tsx:36-54 | the shown message is empty iff `ErroLideranca` finds nothing, else that error |
| PreCadastroMinisterios.ErroInteressado | src/components/PreCadastroMinisterios.tsx:57-72 | the name checks, then an exact duplicate among the interested |
| PreCadastroMinisterios.SelecionadosData | src/components/PreCadastroMinisterios.tsx:22-24 | the available ministries whose id is selected, in order |
| PreCadastroMinisterios.PossuiDiretorAssociado | src/components/PreCadastroMinisterios.tsx:82-86 | no associate field iff the id is one of the five listed |
| PreCadastroMinisterios.MinisteriaisPossuemDiretorAssociado | src/components/PreCadastroMinisterios.tsx:82-86 | every ministerial entry gets the associate field, matching its associate post |
| PreCadastroMinisterios.ClubesSemCampoDeAssociado | src/components/PreCadastroMinisterios.tsx:82-86 | the clubs get no associate field although they have two associate posts |
| PreCadastroMinisterios.ComVagasConfiguraveis | src/components/PreCadastroMinisterios.tsx:88-91 | the selected among elders, deacons and deaconesses, in order |
| PreCadastroMinisterios.VagasDoCampoInteiro | src/components/PreCadastroMinisterios.tsx:136 | `parseInt(v) \|\| 1` of a printed integer k is k, except 1 for 0 |
| PreCadastroMinisterios.VagasDoCampoVazio | src/components/PreCadastroMinisterios.tsx:136 | an empty field gives 1 |
| PreCadastroMinisterios.VagasDoCampo | src/components/PreCadastroMinisterios.tsx:136 | `parseInt(v) \|\| 1` is never 0 |
| PreCadastroMinisterios.SalvarLideranca | src/components/PreCadastroMinisterios.tsx:36-55 | the leadership is saved iff `ErroLideranca` finds nothing, with both names trimmed |
| PreCadastroMinisterios.TelaPreCadastro.HandleSalvarLideranca | src/components/PreCadastroMinisterios.tsx:36-55 | saves the trimmed names iff `ErroLideranca` finds nothing, else shows it |
| PreCadastroMinisterios.TelaPreCadastro.HandleAdicionarInteressado | src/components/PreCadastroMinisterios.tsx:57-80 | adds the trimmed name and clears the field iff `ErroInteressado` finds nothing |
| PreCadastroMinisterios.TelaPreCadastro.AlternarExpandido | src/components/PreCadastroMinisterios.tsx:161 | a click expands the ministry or collapses it if it was expanded |
| PreCadastroMinisterios.TelaPreCadastro.AlterarDiretor | src/components/PreCadastroMinisterios.tsx:206-212 | typing changes only that ministry's director entry and clears the message |
| PreCadastroMinisterios.TelaPreCadastro.AlterarDiretorAssociado | src/components/PreCadastroMinisterios.tsx:227-233 | typing changes only that ministry's associate entry and clears the message |
| PreCadastroMinisterios.TelaPreCadastro.AlterarInteressado | src/components/PreCadastroMinisterios.tsx:275-281 | typing changes only that ministry's interested-name entry and clears the message |
| ConfiguracaoComissao.Categorias | src/components/ConfiguracaoComissao.tsx:47 | "Todos" then each category once, exactly those present, in order of first occurrence |
| ConfiguracaoComissao.Filtrados | src/components/ConfiguracaoComissao.tsx:50-52 | all for "Todos", else exactly the ministries of that category, in order |
| ConfiguracaoComissao.FiltradosParticao | src/components/ConfiguracaoComissao.tsx:47-52 | for each listed category a ministry is kept iff it has that category |
| ConfiguracaoComissao.ErroDepartamento | src/components/ConfiguracaoComissao.tsx:54-75 | each message iff its check fails first; none iff name and description are not blank and seats are 1..10 |
| ConfiguracaoComissao.MensagemDepartamento | src/components/ConfiguracaoComissao.tsx:54-74 | the shown message is empty iff `ErroDepartamento` finds nothing, else that error |
| ConfiguracaoComissao.PodeIniciar | src/components/ConfiguracaoComissao.tsx:413 | the start buttons are enabled iff the name is not blank and something is selected |
| ConfiguracaoComissao.ErroIniciar | src/components/ConfiguracaoComissao.tsx:77-87 | no message iff the buttons are enabled; the name message iff the name is blank; with a name and no selection, the selection message |
| ConfiguracaoComissao.ComissaoEmAndamento | src/components/ConfiguracaoComissao.tsx:95 | in progress iff some result exists or a ministry is current |
| ConfiguracaoComissao.TextoBotao | src/components/ConfiguracaoComissao.tsx:95-96 | one of the two labels; "Retomar Comissão" iff a result exists or a ministry is current |
| ConfiguracaoComissao.AdicionarDepartamento | src/components/ConfiguracaoComissao.tsx:54-75 | the department is forwarded iff `ErroDepartamento` finds nothing, with trimmed non-blank texts and 1..10 seats |
| ConfiguracaoComissao.TelaConfiguracao.HandleAdicionarDepartamento | src/components/ConfiguracaoComissao.tsx:54-75 | adds the trimmed texts and resets the form iff `ErroDepartamento` finds nothing |
| ConfiguracaoComissao.TelaConfiguracao.HandleIniciarComissao | src/components/ConfiguracaoComissao.tsx:77-93 | starts iff the buttons are enabled, else shows the message |
| ConfiguracaoComissao.TelaConfiguracao.SelecionarFiltro | src/components/ConfiguracaoComissao.tsx:157 | a category button sets the filter; the form is kept |
| ConfiguracaoComissao.TelaConfiguracao.AlterarNomeDepartamento | src/components/ConfiguracaoComissao.tsx:318-321 | typing sets the name and clears the message; the other fields are kept |
| ConfiguracaoComissao.TelaConfiguracao.AlterarDescricaoDepartamento | src/components/ConfiguracaoComissao.tsx:334-337 | typing sets the description and clears the message; the other fields are kept |
| ConfiguracaoComissao.TelaConfiguracao.AlterarVagasDepartamento | src/components/ConfiguracaoComissao.tsx:352-355 | typing sets the seats and clears the message; the other fields are kept |
| ConfiguracaoComissao.TelaConfiguracao.LimparDepartamento | src/components/ConfiguracaoComissao.tsx:71-74 | the form is reset to empty texts and 2 seats; the filter is kept |
| Ranking.InserirPermutacao | src/components/ConfirmacaoFinalizacao.tsx:26 | inserting adds the candidate and keeps all the others |
| Ranking.Ordenar | src/components/ConfirmacaoFinalizacao.tsx:26 | the ranking is a permutation of the candidates |
| Ranking.EmpatadosMembro | src/components/ConfirmacaoFinalizacao.tsx:26 | the tied group for a count is exactly the candidates with that count |
| Ranking.OrdenarDecrescente | src/components/ConfirmacaoFinalizacao.tsx:26 | the ranking is in non-increasing vote order |
| Ranking.OrdenarEstavel | src/components/ConfirmacaoFinalizacao.tsx:26 | candidates with equal votes keep their list order |
| Ranking.OrdenarPrimeiroEhVencedor | src/components/ConfirmacaoFinalizacao.tsx:26-27 | the head of the ranking is the winner that finalisation stores |
| Ranking.Porcentagem | src/components/ContadorVotos.tsx:19-22 | 0 for a zero total, else the nearest integer to 100·votes/total |
| Ranking.PorcentagemLimites | src/components/ConfirmacaoFinalizacao.tsx:29-32 | a share of the total lies in 0..100; all of it is 100 |
| Ranking.VotosAteTotal | src/components/ConfirmacaoFinalizacao.tsx:25 | each candidate's votes are at most the total |
| Ranking.PorcentagemDeCandidato | src/components/ConfirmacaoFinalizacao.tsx:122 | every shown percentage lies in 0..100 |
| ConfirmacaoFinalizacao.VencedorDestacado | src/components/ConfirmacaoFinalizacao.tsx:82 | the banner shows the winner, and only with a vote |
| ConfirmacaoFinalizacao.VencedorDestacadoSeHaVotos | src/components/ConfirmacaoFinalizacao.tsx:82 | no banner iff no candidate has a vote |
| ConfirmacaoFinalizacao.PorcentagemDoVencedor | src/components/ConfirmacaoFinalizacao.tsx:93 | the banner's percentage lies in 0..100 |
| ContadorVotos.Linhas | src/components/ContadorVotos.tsx:43-45 | one row per candidate |
| ContadorVotos.LinhasPorcentagem | src/components/ContadorVotos.tsx:19-22 | each row's percentage is `Porcentagem` of its candidate's votes over the total |
| ContadorVotos.MostraVazio | src/components/ContadorVotos.tsx:37 | the empty message shows iff there are no candidates |
| ContadorVotos.LinhasOrdenadas | src/components/ContadorVotos.tsx:17-66 | the rows are a permutation in non-increasing vote order, numbered from 1 |
| ContadorVotos.UmLider | src/components/ContadorVotos.tsx:45 | only the first row can lead; it leads iff some vote exists, and it is the winner |
| ContadorVotos.PorcentagensLimitadas | src/components/ContadorVotos.tsx:44 | every row's percentage lies in 0..100 |
| MinisterioSelector.FiltrarPorStatus | src/components/MinisterioSelector.tsx:13-26 | all, exactly the finished or exactly the pending ministries, in order |
| MinisterioSelector.StatusParticao | src/components/MinisterioSelector.tsx:18-26 | the finished and pending views split the list |
| MinisterioSelector.Opcoes | src/components/MinisterioSelector.tsx:29-34 | one option per filtered ministry, with id, name and status |
| MinisterioSelector.OpcoesMarcadas | src/components/MinisterioSelector.tsx:29-34 | options of the finished view are marked finished, of the pending view not |
| MinisterioSelector.ValorAtual | src/components/MinisterioSelector.tsx:63-65 | none without a current ministry or when no option has its id; else the first option with its id |
| MinisterioSelector.ContagemPendentesComplemento | src/components/MinisterioSelector.tsx:95 | the pending count is the list size minus the finished ministries |
| MinisterioSelector.ContagemFinalizadosContaResultados | src/components/MinisterioSelector.tsx:104 | results all for one ministry list that ministry alone in the finished view, whatever their number |
| MinisterioSelector.HandleSelecao | src/components/MinisterioSelector.tsx:57-61 | a chosen catalogue option becomes current at stage 1 with no candidates, the stage clock restarted and the results kept, finished or not; clearing or an unknown id changes nothing |
| ControlesVotacao.FormatarTempoLeitura | src/components/ControlesVotacao.tsx:38-42 | the clock text reads back as the time: minutes of at least two digits, never cut, and two seconds digits below 60 |
| ControlesVotacao.CandidatosComVotos | src/components/ControlesVotacao.tsx:55 | exactly the candidates with votes, in order |
| ControlesVotacao.PainelZerarVisivel | src/components/ControlesVotacao.tsx:109 | the zeroing panel shows iff the total is positive |
| ControlesVotacao.DesfazerDesabilitado | src/components/ControlesVotacao.tsx:96 | undo is disabled iff the history is empty |
| ControlesVotacao.FormatarTempo | src/components/ControlesVotacao.tsx:38-42 | the clock text has at least two minutes digits, then a colon and two seconds digits |
| ControlesVotacao.Controles.Tick | src/components/ControlesVotacao.tsx:28-36 | the session clock advances by one only while not paused |
| ControlesVotacao.Controles.HandleTogglePause | src/components/ControlesVotacao.tsx:44-46 | pause flips |
| ControlesVotacao.Controles.AlternarMenuZerar | src/components/ControlesVotacao.tsx:117 | the zeroing menu button flips the menu; the clock is kept |
| ControlesVotacao.Controles.HandleZerarCandidato | src/components/ControlesVotacao.tsx:48-53 | unconfirmed, nothing changes; confirmed, the menu closes and a listed candidate is zeroed with all its ids purged from the history, an unknown one left alone; the clock, stage, ministry, results and stage start are kept and the history stays consistent |
| ComponenteExplicacao.FormatarTempoLeitura | src/components/ComponenteExplicacao.tsx:65-69 | the text is the unpadded minutes, a colon and two seconds digits below 60, and reads back as the time |
| ComponenteExplicacao.FormatarTempoSemZeroAEsquerda | src/components/ComponenteExplicacao.tsx:68 | under ten minutes the minutes take one digit |
| ComponenteExplicacao.FormatarTempo | src/components/ComponenteExplicacao.tsx:65-69 | for a non-negative time the text ends in a colon and two characters, with at least one minutes character |
| ComponenteExplicacao.NomeCategoria | src/components/ComponenteExplicacao.tsx:111-118 | the three category codes get their display names; any other text is kept |
| ComponenteExplicacao.NomeCategoriaDistingue | src/components/ComponenteExplicacao.tsx:111-118 | distinct categories get distinct names; only a custom one shows its code |
| ComponenteExplicacao.MarcarExplicado | src/components/ComponenteExplicacao.tsx:72-78 | the explained set only grows, by the current ministry |
| ComponenteExplicacao.MarcarExplicadoIdempotente | src/components/ComponenteExplicacao.tsx:74-75 | marking twice equals marking once |
| ComponenteExplicacao.PulaConfirmacao | src/components/ComponenteExplicacao.tsx:92-98 | the confirmation is skipped iff automatic or already explained |
| ComponenteExplicacao.ExplicadoPulaConfirmacao | src/components/ComponenteExplicacao.tsx:71-98 | once advanced from, a ministry asks no confirmation again |
| ComponenteExplicacao.Explicacao.SincronizarModal | src/components/ComponenteExplicacao.tsx:50-63 | the dialog is open iff a ministry is current at stage 1; opening restarts the countdown |
| ComponenteExplicacao.Explicacao.HandleProximaEtapa | src/components/ComponenteExplicacao.tsx:71-84 | marks the ministry explained, runs `proximaEtapa`, closes the dialog |
| ComponenteExplicacao.Explicacao.HandleVoltar | src/components/ComponenteExplicacao.tsx:86-90 | cancels the ministry (stage 1, no candidates, results kept, stage clock restarted unless already at 1) and closes the dialog, the rest kept |
| ComponenteExplicacao.Explicacao.HandleIniciarIndicacoes | src/components/ComponenteExplicacao.tsx:92-98 | iff `PulaConfirmacao`, marks the ministry explained, advances the stage below 3 with the stage clock restarted and closes both dialogs; else only opens the confirmation, the provider unchanged |
| ComponenteExplicacao.Explicacao.TickLeitura | src/components/ComponenteExplicacao.tsx:34-47 | nothing changes unless open in automatic mode; then a positive countdown drops by one, and at zero the ministry is marked explained, the stage advances below 3 with the clock restarted and the dialog closes |
| ComponenteExplicacao.Explicacao.FecharConfirmacao | src/components/ComponenteExplicacao.tsx:257 | the confirmation closes; the dialog, countdown and explained set are kept |
| ProgressBar.FormatarTempoCasos | src/components/ProgressBar.tsx:8-18 | "Calculando..." for 0, "{h}h {m}min" from one hour with m < 60, else "{s div 60} minutos" |
| ProgressBar.FormatarTempoMenosDeUmMinuto | src/components/ProgressBar.tsx:12-17 | under a minute the text is "0 minutos" |
| ProgressBar.FormatarTempo | src/components/ProgressBar.tsx:8-18 | "Calculando..." iff the estimate is 0 |
| ProgressBar.FormatarTempoAproxima | src/components/ProgressBar.tsx:9-17 | a positive estimate is shown as whole hours and minutes, or whole minutes, that fall short of it by less than a minute |
| ProgressBar.Pendentes | src/components/ProgressBar.tsx:20-51 | pending plus finished is the list size |
| ProgressBar.PendentesCatalogo | src/components/ProgressBar.tsx:51 | 25 minus the results; negative iff more than 25 results; 0 iff progress is 100 |
| GoogleForms.EnviarNomeIgreja | src/utils/googleForms.ts:30-47 | nothing is sent iff the name is blank or the run is local; else the untrimmed name |
| GoogleForms.DecomposicaoDuracao | src/utils/googleForms.ts:71-73 | hours·3600 + minutes·60 + seconds is the duration, minutes and seconds below 60 |
| GoogleForms.DuracaoFormatadaComHoras | src/utils/googleForms.ts:75-77 | the hour field appears exactly from one hour on |
| GoogleForms.DuracaoFormatada | src/utils/googleForms.ts:75-77 | the text holds an `h` iff the duration has a whole hour |
| GoogleForms.EnviarFinalizacao | src/utils/googleForms.ts:58-82 | nothing is sent iff the name is blank or the run is local; else the message |
| GoogleForms.Mensagem | src/utils/googleForms.ts:79 | the message is the name as typed, then " - Duração: " and `DuracaoFormatada` of the seconds, then " (", the raw seconds and "s)" |

## Left out

- Rendering, styling, routing (`navigate`) and the `Enter` key handlers, which only call the modelled handlers.
- Timers: each tick of an interval is an explicit call (`Controles.Tick`, `Explicacao.TickLeitura`). The one-second spacing is not modelled.
- Browser storage: each persisted value is a plain field, and the explained set is read back as a constructor parameter.
- `Date.now()` and `Math.random()`: the time and the random id suffix are parameters. `IdNovoCandidato` builds the id from them, and distinct inputs give distinct ids (`IdNovoCandidatoInjetivo`); how likely two additions are to draw the same time and random part is not modelled.
- `window.confirm` and `alert`: the user's answer is a boolean parameter, and an alert is a returned text.
- The context functions whose bodies are not part of this model (`getNumeroVagas`, `getPreCadastro`, `setLiderancaAtual`, `adicionarInteressado`, `removerInteressado`, `setNumeroVagas`, `adicionarDepartamentoPersonalizado`, `removerDepartamentoPersonalizado`, `iniciarCronometroComissao`, the selection toggles): their results are parameters, and a handler returns the call it would make.
- `fetch`, the form address and field ids, `isLocalEnvironment`, and the `console.log`/`console.error` calls of the local-run, success and error branches (`src/utils/googleForms.ts:35`, `:49`, `:66`, `:90`, `:92`): the environment check is the parameter `ambienteLocal`, and the logging is console output only.
- Floating point: `Math.round` of a ratio is exact integer rounding, and `ComponenteExplicacao.tsx:211` (the bar width) is not modelled.
- `TelaConfiguracao.HandleAdicionarDepartamento`: does not model a non-integer or NaN seat value, because the field is taken as an integer; `Number()` of a non-numeric field gives NaN, which passes the code's 1..10 check.
- Unicode: trimming strips the full JavaScript whitespace and line-terminator set, but lower-casing maps only `A`..`Z` and the Latin-1 capitals `U+00C0`..`U+00DE` (not `U+00D7`), not the rest of Unicode. A string is a sequence of characters, where JavaScript's `.length` counts UTF-16 code units: a character outside the Basic Multilingual Plane counts 2 there and 1 here, which moves the 3 and 100 bounds of both `ValidarNome` functions and the inputs' `maxLength={100}`.
- `VagasDoCampo`: follows `parseInt` for decimal text with an optional sign and leading blanks; hexadecimal prefixes, other radixes and non-ASCII digits are not modelled.
- `ListaCandidatos.tsx` and the removal of a candidate from the nomination list: the context's `removerCandidato` is modelled (`Votacao.RemoverCandidato`), but not the list component.
- Help, report and static pages, the PDF export, the donation button, the header, sidebar and layout: these are outside the modelled core.
- `getCategoriaColor` in `ComponenteExplicacao.tsx` and the status badges of the picker: CSS class choice only.
