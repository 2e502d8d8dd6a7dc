/** The two reports sent to a web form: the church name when it is registered, and
    a message when the committee is finished. The HTTP post, the form's address and
    field ids, and the sniffing of the page address that decides whether the app runs
    locally are not part of this model: the last is the parameter `ambienteLocal`, and
    each sender returns the text it would post, or nothing. */
module GoogleForms {
  import opened Wrappers
  import opened Text

  /** `enviarNomeIgreja`: nothing for a blank name or a local run; otherwise the name
      as typed, not trimmed. */
  function EnviarNomeIgreja(nomeIgreja: string, ambienteLocal: bool): (r: Option<string>)
    ensures r.None? <==> Blank(nomeIgreja) || ambienteLocal
    ensures r.Some? ==> r.value == nomeIgreja
  {
    if nomeIgreja == [] || Trim(nomeIgreja) == [] then None
    else if ambienteLocal then None
    else Some(nomeIgreja)
  }

  /** The hours, minutes and seconds of a duration (`Math.floor` on a positive divisor is
      Dafny's division; `%` is JavaScript's). */
  function Horas(s: int): int { s / 3600 }
  function Minutos(s: int): int { JsRemainder(s, 3600) / 60 }
  function Segundos(s: int): int { JsRemainder(s, 60) }

  /** For a duration that is not negative the three fields put it back together, with
      minutes and seconds below 60. */
  lemma DecomposicaoDuracao(s: nat)
    ensures Horas(s) * 3600 + Minutos(s) * 60 + Segundos(s) == s
    ensures 0 <= Minutos(s) < 60 && 0 <= Segundos(s) < 60 && Horas(s) >= 0
  {
    var h := s / 3600;
    var r := s % 3600;
    var m := r / 60;
    var q := r % 60;
    assert s == 3600 * h + 60 * m + q;
    assert s == 60 * (60 * h + m) + q;
    assert s % 60 == q;
  }

  /** The duration text: with hours when there is at least one, and then (and only
      then) it holds an `h`. */
  function DuracaoFormatada(s: int): (t: string)
    ensures 'h' in t <==> Horas(s) > 0
  {
    SemLetraH(Horas(s));
    SemLetraH(Minutos(s));
    SemLetraH(Segundos(s));
    if Horas(s) > 0 then
      IntToString(Horas(s)) + "h " + IntToString(Minutos(s)) + "min " + IntToString(Segundos(s)) + "s"
    else
      IntToString(Minutos(s)) + "min " + IntToString(Segundos(s)) + "s"
  }

  /** The text of a number has no letter `h`. */
  lemma SemLetraH(i: int)
    ensures 'h' !in IntToString(i)
  {
    var t := IntToString(i);
    assert forall k :: 0 <= k < |t| ==> t[k] == '-' || IsDigit(t[k]);
  }

  /** The hour field appears exactly from one hour on. */
  lemma DuracaoFormatadaComHoras(s: nat)
    ensures s >= 3600 ==> DuracaoFormatada(s) == NatToString(s / 3600) + "h " + NatToString((s % 3600) / 60) + "min " + NatToString(s % 60) + "s"
    ensures s < 3600 ==> DuracaoFormatada(s) == NatToString(s / 60) + "min " + NatToString(s % 60) + "s"
  {
    DecomposicaoDuracao(s);
    if s >= 3600 {
      assert Horas(s) >= 1;
    } else {
      assert Horas(s) == 0 && Minutos(s) == s / 60;
    }
  }

  /** Where the three parts of `a + b + c` sit. */
  lemma TresPartes(a: string, b: string, c: string)
    ensures var t := a + b + c;
      |t| == |a| + |b| + |c| && t[..|a|] == a && t[|a|..|t| - |c|] == b && t[|t| - |c|..] == c
  {
    var t := a + b + c;
    assert t[..|a|] == a;
    assert t[|a|..|a| + |b|] == b;
    assert t[|a| + |b|..] == c;
  }

  /** The message of the finishing report: the church name as typed, the formatted
      duration after " - Duração: ", and the raw seconds in parentheses. */
  function Mensagem(nomeIgreja: string, duracaoSegundos: int): (m: string)
    ensures var fim := " (" + IntToString(duracaoSegundos) + "s)";
      |m| > |nomeIgreja| + |fim| && m[..|nomeIgreja|] == nomeIgreja && m[|m| - |fim|..] == fim &&
      m[|nomeIgreja|..|m| - |fim|] == " - Duração: " + DuracaoFormatada(duracaoSegundos)
  {
    var meio := " - Duração: " + DuracaoFormatada(duracaoSegundos);
    var fim := " (" + IntToString(duracaoSegundos) + "s)";
    TresPartes(nomeIgreja, meio, fim);
    nomeIgreja + meio + fim
  }

  /** `enviarFinalizacaoComissao`: nothing for a blank name or a local run; otherwise the message. */
  function EnviarFinalizacao(nomeIgreja: string, duracaoSegundos: int, ambienteLocal: bool): (r: Option<string>)
    ensures r.None? <==> Blank(nomeIgreja) || ambienteLocal
    ensures r.Some? ==> r.value == Mensagem(nomeIgreja, duracaoSegundos)
  {
    if nomeIgreja == [] || Trim(nomeIgreja) == [] then None
    else if ambienteLocal then None
    else Some(Mensagem(nomeIgreja, duracaoSegundos))
  }
}
