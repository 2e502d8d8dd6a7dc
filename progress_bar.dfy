/** The overall progress panel: the estimated remaining time as text and the
    finished/pending counts. */
module ProgressBar {
  import opened Text
  import opened Ministerios
  import opened VotacaoContext

  const Calculando: string := "Calculando..."

  /** `formatarTempo`: "Calculando..." for 0, hours and minutes from one hour on,
      otherwise whole minutes with the seconds dropped. `Math.floor` of a division by
      a positive constant is Dafny's division; `%` is JavaScript's. */
  function FormatarTempo(segundos: int): (t: string)
    ensures t == Calculando <==> segundos == 0
  {
    if segundos == 0 then Calculando
    else
      var horas := segundos / 3600;
      var minutos := JsRemainder(segundos, 3600) / 60;
      var primeiro := IntToString(if horas > 0 then horas else minutos);
      assert Calculando[0] == 'C' && (primeiro[0] == '-' || IsDigit(primeiro[0]));
      if horas > 0 then IntToString(horas) + "h " + IntToString(minutos) + "min"
      else IntToString(minutos) + " minutos"
  }

  /** The three shapes of the text for a time that is not negative, with the minute
      field of the hour form below 60. */
  lemma FormatarTempoCasos(segundos: nat)
    ensures segundos == 0 ==> FormatarTempo(segundos) == Calculando
    ensures segundos >= 3600 ==>
      (segundos % 3600) / 60 < 60 &&
      FormatarTempo(segundos) == NatToString(segundos / 3600) + "h " + NatToString((segundos % 3600) / 60) + "min"
    ensures 0 < segundos < 3600 ==> FormatarTempo(segundos) == NatToString(segundos / 60) + " minutos"
  {
    if segundos >= 3600 {
      assert segundos / 3600 > 0 && JsRemainder(segundos, 3600) == segundos % 3600;
    } else if segundos > 0 {
      assert segundos / 3600 == 0 && JsRemainder(segundos, 3600) == segundos;
    }
  }

  /** A positive time is shown to the minute below it: the text names `h` hours and
      `m` minutes (or only `m` minutes under an hour) with `3600h + 60m <= s < 3600h + 60m + 60`. */
  lemma FormatarTempoAproxima(segundos: nat)
    requires segundos > 0
    ensures segundos >= 3600 ==> exists h: nat, m: nat ::
      FormatarTempo(segundos) == NatToString(h) + "h " + NatToString(m) + "min" &&
      1 <= h && m < 60 && 3600 * h + 60 * m <= segundos < 3600 * h + 60 * m + 60
    ensures segundos < 3600 ==> exists m: nat ::
      FormatarTempo(segundos) == NatToString(m) + " minutos" &&
      m < 60 && 60 * m <= segundos < 60 * m + 60
  {
    FormatarTempoCasos(segundos);
    var h, m := segundos / 3600, (segundos % 3600) / 60;
    assert segundos == 3600 * h + segundos % 3600;
    assert segundos % 3600 == 60 * m + (segundos % 3600) % 60;
    if segundos < 3600 {
      assert h == 0 && m == segundos / 60;
    }
  }

  /** Less than a minute left reads "0 minutos", never "Calculando...". */
  lemma FormatarTempoMenosDeUmMinuto(segundos: nat)
    requires 0 < segundos < 60
    ensures FormatarTempo(segundos) == "0 minutos"
  {
    assert segundos / 3600 == 0;
    assert JsRemainder(segundos, 3600) == segundos;
    assert segundos / 60 == 0;
    assert DigitChar(0) == '0';
    assert IntToString(0) == "0";
  }

  /** The "n pendentes" count: the size of the ministry list minus the number of results. */
  function Pendentes(ms: seq<Ministerio>, rs: seq<Resultado>): (n: int)
    ensures n + |rs| == |ms|
  {
    |ms| - |rs|
  }

  /** With the catalogue, the count is 25 minus the results, and it drops below zero
      once a finished ministry has been chosen and finished again often enough. */
  lemma PendentesCatalogo(rs: seq<Resultado>)
    ensures Pendentes(Catalogo, rs) == 25 - |rs|
    ensures Pendentes(Catalogo, rs) < 0 <==> |rs| > 25
    ensures Pendentes(Catalogo, rs) == 0 <==> ProgressoGeral(rs) == 100
  {
    CatalogoTamanho();
    ProgressoGeralQuatroPorCento(rs);
  }
}
