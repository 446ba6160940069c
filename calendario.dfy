/**
  The date utilities of models/Presenca.js: `converterData` (parse and validate
  a `YYYY-MM-DD` text), `obterDiaSemana` (weekday name), `pegarDataHoje`
  (today's date as text) and `verificarDiaSemana` (the weekend rule).

  JavaScript's `new Date(ano, mesIndice, dia)` is modelled as the calendar
  arithmetic it performs: a year in 0..99 means 1900 + year, a month index
  outside 0..11 carries into the year, and a day outside the month rolls into
  the neighbouring months. Dates are proleptic Gregorian; the local time zone
  plays no part once the date fields are known.
*/
module Calendario {
  import opened Wrappers
  import opened Texto

  /** A calendar date; `mes` is 1-based (JavaScript's `getMonth() + 1`). */
  datatype DataCivil = DataCivil(ano: int, mes: int, dia: int)

  datatype ErroData =
    | NaoEhTexto        // not a string, or the empty string
    | FormatoInvalido   // does not match ^\d{4}-\d{2}-\d{2}$
    | DataInvalida      // fields do not survive the round trip through Date

  predicate Bissexto(ano: int) {
    ano % 4 == 0 && (ano % 100 != 0 || ano % 400 == 0)
  }

  function DiasNoMes(ano: int, mes: int): (n: int)
    requires 1 <= mes <= 12
    ensures 28 <= n <= 31
  {
    if mes == 2 then (if Bissexto(ano) then 29 else 28)
    else if mes == 4 || mes == 6 || mes == 9 || mes == 11 then 30
    else 31
  }

  predicate DataValida(d: DataCivil) {
    1 <= d.mes <= 12 && 1 <= d.dia <= DiasNoMes(d.ano, d.mes)
  }

  function DiasNoAno(ano: int): int {
    if Bissexto(ano) then 366 else 365
  }

  /** Days in the years before `ano`, counting from year 1. */
  function DiasAntesDoAno(ano: int): int {
    365 * (ano - 1) + (ano - 1) / 4 - (ano - 1) / 100 + (ano - 1) / 400
  }

  /** Days in the months of `ano` before `mes`. */
  function DiasAntesDoMes(ano: int, mes: int): int
    requires 1 <= mes <= 12
  {
    var tabela := [0, 31, 59, 90, 120, 151, 181, 212, 243, 273, 304, 334];
    tabela[mes - 1] + (if mes > 2 && Bissexto(ano) then 1 else 0)
  }

  /** Day number: 1 for 0001-01-01, one more for each following day. */
  function NumeroDoDia(ano: int, mes: int, dia: int): int
    requires 1 <= mes <= 12
  {
    DiasAntesDoAno(ano) + DiasAntesDoMes(ano, mes) + dia
  }

  function MesSeguinte(ano: int, mes: int): (r: (int, int))
    requires 1 <= mes <= 12
    ensures 1 <= r.1 <= 12
  {
    if mes == 12 then (ano + 1, 1) else (ano, mes + 1)
  }

  function MesAnterior(ano: int, mes: int): (r: (int, int))
    requires 1 <= mes <= 12
    ensures 1 <= r.1 <= 12
    ensures MesSeguinte(r.0, r.1) == (ano, mes)
  {
    if mes == 1 then (ano - 1, 12) else (ano, mes - 1)
  }

  /** One more year adds one more multiple of `k` exactly when it is one. */
  lemma DivisaoPasso(a: int)
    ensures (a + 1) / 4 == a / 4 + (if (a + 1) % 4 == 0 then 1 else 0)
    ensures (a + 1) / 100 == a / 100 + (if (a + 1) % 100 == 0 then 1 else 0)
    ensures (a + 1) / 400 == a / 400 + (if (a + 1) % 400 == 0 then 1 else 0)
  {
  }

  lemma MultiplosAninhados(a: int)
    ensures a % 400 == 0 ==> a % 100 == 0
    ensures a % 100 == 0 ==> a % 4 == 0
  {
    if a % 400 == 0 {
      var k := 4 * (a / 400) - a / 100;
      assert 100 * k == a % 100;
    }
    if a % 100 == 0 {
      var k := 25 * (a / 100) - a / 4;
      assert 4 * k == a % 4;
    }
  }

  /** A year holds as many days as the leap rule says. */
  lemma PassoDeAno(ano: int)
    ensures DiasAntesDoAno(ano + 1) == DiasAntesDoAno(ano) + DiasNoAno(ano)
  {
    DivisaoPasso(ano - 1);
    MultiplosAninhados(ano);
    var bissextos := (if ano % 4 == 0 then 1 else 0) - (if ano % 100 == 0 then 1 else 0)
                     + (if ano % 400 == 0 then 1 else 0);
    assert DiasAntesDoAno(ano + 1) == DiasAntesDoAno(ano) + 365 + bissextos;
  }

  /** The first day of the next month is one month's length later. */
  lemma {:induction false} PassoDeMes(ano: int, mes: int)
    requires 1 <= mes <= 12
    ensures NumeroDoDia(MesSeguinte(ano, mes).0, MesSeguinte(ano, mes).1, 1)
            == NumeroDoDia(ano, mes, 1) + DiasNoMes(ano, mes)
  {
    if mes == 12 {
      PassoDeAno(ano);
      assert DiasAntesDoMes(ano, 12) + 31 == DiasNoAno(ano);
    }
  }

  /**
    Day arithmetic of JavaScript's Date: day `dia` of month `mes` of `ano`,
    where `dia` may fall before or after that month, as a real date.
  */
  function NormalizarDia(ano: int, mes: int, dia: int): (r: DataCivil)
    requires 1 <= mes <= 12
    ensures DataValida(r)
    ensures NumeroDoDia(r.ano, r.mes, r.dia) == NumeroDoDia(ano, mes, 1) + dia - 1
    ensures dia >= 1 ==> r.ano >= ano
    ensures dia >= 0 ==> r.ano >= ano - 1
    ensures 1 <= dia <= DiasNoMes(ano, mes) ==> r == DataCivil(ano, mes, dia)
    decreases if dia < 1 then 100 - dia else dia
  {
    if dia < 1 then
      var (a, m) := MesAnterior(ano, mes);
      PassoDeMes(a, m);
      NormalizarDia(a, m, dia + DiasNoMes(a, m))
    else if dia > DiasNoMes(ano, mes) then
      var (a, m) := MesSeguinte(ano, mes);
      PassoDeMes(ano, mes);
      NormalizarDia(a, m, dia - DiasNoMes(ano, mes))
    else
      DataCivil(ano, mes, dia)
  }

  /** The full year `new Date(ano, ...)` uses: 0..99 stand for 1900..1999. */
  function AnoEfetivo(ano: int): int {
    if 0 <= ano <= 99 then 1900 + ano else ano
  }

  /**
    `new Date(ano, mesIndice, dia)` read back through getFullYear, getMonth + 1
    and getDate: the month index carries into the year, then the day rolls
    over month ends.
  */
  function ConstruirData(ano: int, mesIndice: int, dia: int): (r: DataCivil)
    ensures DataValida(r)
    ensures var a := AnoEfetivo(ano) + mesIndice / 12;
            NumeroDoDia(r.ano, r.mes, r.dia) == NumeroDoDia(a, mesIndice % 12 + 1, 1) + dia - 1
  {
    NormalizarDia(AnoEfetivo(ano) + mesIndice / 12, mesIndice % 12 + 1, dia)
  }

  /**
    The text matches `^\d{4}-\d{2}-\d{2}$`: ten characters, a hyphen at
    positions 4 and 7 and a decimal digit everywhere else.
  */
  function PadraoData(s: string): (b: bool)
    ensures b <==> |s| == 10 && forall i :: 0 <= i < |s| ==> if i == 4 || i == 7 then s[i] == '-' else EhDigito(s[i])
  {
    if |s| == 10 then
      assert forall i :: 0 <= i < 4 ==> s[..4][i] == s[i];
      assert forall i :: 5 <= i < 7 ==> s[5..7][i - 5] == s[i];
      assert forall i :: 8 <= i < 10 ==> s[8..][i - 8] == s[i];
      s[4] == '-' && s[7] == '-' && SoDigitos(s[..4]) && SoDigitos(s[5..7]) && SoDigitos(s[8..])
    else
      false
  }

  /**
    `s.split("-").map(Number)` of a text that matches the pattern: the three
    digit runs read as numbers, so a year below 10000 and a month and day
    below 100.
  */
  function Campos(s: string): (c: DataCivil)
    requires PadraoData(s)
    ensures 0 <= c.ano < 10000 && 0 <= c.mes < 100 && 0 <= c.dia < 100
  {
    assert Potencia10(2) == 100 && Potencia10(4) == 10000;
    DataCivil(ValorDigitos(s[..4]), ValorDigitos(s[5..7]), ValorDigitos(s[8..]))
  }

  /**
    The Date built from a date's fields gives the same fields back exactly
    when the date is real and its year is at least 100.
  */
  lemma ConstrucaoAceita(c: DataCivil)
    requires c.ano >= 0
    ensures var obj := ConstruirData(c.ano, c.mes - 1, c.dia);
            (obj.dia == c.dia && obj.mes - 1 == c.mes - 1 && obj.ano == c.ano)
            <==> DataValida(c) && c.ano >= 100
  {
    var obj := ConstruirData(c.ano, c.mes - 1, c.dia);
    if 1 <= c.mes <= 12 {
      assert (c.mes - 1) / 12 == 0 && (c.mes - 1) % 12 == c.mes - 1;
      if c.ano < 100 && c.dia >= 1 {
        assert obj.ano >= c.ano + 1900;
      }
    }
  }

  /**
    `converterData`: `entrada` is None when the argument is not a string.
    The check against the constructed Date accepts exactly the real dates of
    year 100 or later: a smaller year comes back from the Date shifted by 1900.
  */
  function ConverterData(entrada: Option<string>): (r: Result<DataCivil, ErroData>)
    ensures r.Success? <==>
              entrada.Some? && PadraoData(entrada.value)
              && DataValida(Campos(entrada.value)) && Campos(entrada.value).ano >= 100
    ensures r.Success? ==> r.value == Campos(entrada.value)
    ensures r == Failure(NaoEhTexto) <==> entrada == None || entrada == Some("")
    ensures r == Failure(FormatoInvalido) <==>
              entrada.Some? && entrada.value != "" && !PadraoData(entrada.value)
  {
    if entrada.None? || entrada.value == "" then Failure(NaoEhTexto)
    else if !PadraoData(entrada.value) then Failure(FormatoInvalido)
    else
      var c := Campos(entrada.value);
      var obj := ConstruirData(c.ano, c.mes - 1, c.dia);
      ConstrucaoAceita(c);
      if obj.dia != c.dia || obj.mes - 1 != c.mes - 1 || obj.ano != c.ano then
        Failure(DataInvalida)
      else
        Success(obj)
  }

  /** Weekday names indexed by `getDay()`, 0 = Sunday. */
  const DiasDaSemana: seq<string> :=
    ["domingo", "segunda", "terca", "quarta", "quinta", "sexta", "sabado"]

  /** `getDay()`: 0 for Sunday .. 6 for Saturday (1970-01-01 was a Thursday, 4). */
  function IndiceDiaSemana(d: DataCivil): (i: int)
    requires DataValida(d)
    ensures 0 <= i < 7
  {
    NumeroDoDia(d.ano, d.mes, d.dia) % 7
  }

  /** `obterDiaSemana`. */
  function ObterDiaSemana(d: DataCivil): (nome: string)
    requires DataValida(d)
    ensures nome in DiasDaSemana
    ensures nome == DiasDaSemana[IndiceDiaSemana(d)]
  {
    DiasDaSemana[IndiceDiaSemana(d)]
  }

  /** The calendar day after `d`. */
  function ProximoDia(d: DataCivil): (r: DataCivil)
    requires DataValida(d)
    ensures DataValida(r)
  {
    NormalizarDia(d.ano, d.mes, d.dia + 1)
  }

  /** The day after a date is the next day number, so the next weekday name. */
  lemma ProximoDiaSemana(d: DataCivil)
    requires DataValida(d)
    ensures NumeroDoDia(ProximoDia(d).ano, ProximoDia(d).mes, ProximoDia(d).dia)
            == NumeroDoDia(d.ano, d.mes, d.dia) + 1
    ensures IndiceDiaSemana(ProximoDia(d)) == (IndiceDiaSemana(d) + 1) % 7
    ensures ObterDiaSemana(ProximoDia(d)) == DiasDaSemana[(IndiceDiaSemana(d) + 1) % 7]
  {
    var n := NumeroDoDia(d.ano, d.mes, d.dia);
    var p := ProximoDia(d);
    assert NumeroDoDia(p.ano, p.mes, p.dia) == n + 1;
    ModuloSetePasso(n);
  }

  lemma ModuloSetePasso(n: int)
    ensures (n + 1) % 7 == (n % 7 + 1) % 7
  {
  }

  /**
    `pegarDataHoje`: the clock's date as `${ano}-${mes}-${dia}`, the month and
    day padded to two digits, the year not padded.
  */
  function PegarDataHoje(hoje: DataCivil): string {
    IntParaTexto(hoje.ano) + "-" + PreencherDois(IntParaTexto(hoje.mes))
      + "-" + PreencherDois(IntParaTexto(hoje.dia))
  }

  /** A text assembled as `YYYY-MM-DD` from digit runs matches the pattern and splits back. */
  lemma TextoDeCampos(y: string, m: string, d: string)
    requires |y| == 4 && |m| == 2 && |d| == 2
    requires SoDigitos(y) && SoDigitos(m) && SoDigitos(d)
    ensures PadraoData(y + "-" + m + "-" + d)
    ensures Campos(y + "-" + m + "-" + d) == DataCivil(ValorDigitos(y), ValorDigitos(m), ValorDigitos(d))
  {
    var s := y + "-" + m + "-" + d;
    assert s[..4] == y && s[5..7] == m && s[8..] == d;
  }

  /** Today's text, from a four-digit year, matches the pattern and splits back into today's fields. */
  lemma CamposDeHoje(hoje: DataCivil)
    requires DataValida(hoje) && 1000 <= hoje.ano <= 9999
    ensures PadraoData(PegarDataHoje(hoje))
    ensures Campos(PegarDataHoje(hoje)) == hoje
  {
    var y := NatParaTexto(hoje.ano);
    var m := PreencherDois(NatParaTexto(hoje.mes));
    var d := PreencherDois(NatParaTexto(hoje.dia));
    assert PegarDataHoje(hoje) == y + "-" + m + "-" + d;
    ComprimentoDecimal(hoje.ano);
    DoisDigitosIdaEVolta(hoje.mes);
    DoisDigitosIdaEVolta(hoje.dia);
    TextoDeCampos(y, m, d);
  }

  /**
    Today's text, from a four-digit year, is accepted by `converterData` and
    gives back the same date.
  */
  lemma PegarDataHojeIdaEVolta(hoje: DataCivil)
    requires DataValida(hoje) && 1000 <= hoje.ano <= 9999
    ensures PadraoData(PegarDataHoje(hoje))
    ensures ConverterData(Some(PegarDataHoje(hoje))) == Success(hoje)
  {
    CamposDeHoje(hoje);
  }

  /** `verificarDiaSemana`: Saturday and Sunday are refused. */
  predicate VerificarDiaSemana(diaSemana: string) {
    !(diaSemana == "sabado" || diaSemana == "domingo")
  }

  /** The weekday name of a real date passes exactly when the date falls from Monday to Friday. */
  lemma DiaUtilDaData(d: DataCivil)
    requires DataValida(d)
    ensures VerificarDiaSemana(ObterDiaSemana(d)) <==> 1 <= IndiceDiaSemana(d) <= 5
  {
    var i := IndiceDiaSemana(d);
    if i == 0 {
      assert ObterDiaSemana(d) == "domingo";
    } else if i == 6 {
      assert ObterDiaSemana(d) == "sabado";
    } else {
      assert ObterDiaSemana(d)[0] != 'd' && ObterDiaSemana(d)[1] != 'a';
    }
  }

  // Worked cases: a Monday, a Saturday, a thirteenth month, the 30th of
  // February and a two-digit year, as `converterData` and `obterDiaSemana`
  // treat them.

  lemma ExemploSegunda()
    ensures ObterDiaSemana(DataCivil(2024, 6, 10)) == "segunda"
  {
  }

  lemma ExemploDataAceita()
    ensures ConverterData(Some("2024-06-10")) == Success(DataCivil(2024, 6, 10))
  {
    ValoresDoExemplo();
    TextoDeCampos("2024", "06", "10");
    assert "2024-06-10" == "2024" + "-" + "06" + "-" + "10";
    assert DataValida(DataCivil(2024, 6, 10));
    assert Campos("2024-06-10") == DataCivil(2024, 6, 10);
  }

  lemma ExemploSabado()
    ensures ObterDiaSemana(DataCivil(2024, 6, 15)) == "sabado"
    ensures !VerificarDiaSemana(ObterDiaSemana(DataCivil(2024, 6, 15)))
  {
  }

  lemma ExemploMesTreze()
    ensures ConverterData(Some("2024-13-01")) == Failure(DataInvalida)
  {
    ValoresDoExemplo();
    TextoDeCampos("2024", "13", "01");
    assert "2024-13-01" == "2024" + "-" + "13" + "-" + "01";
  }

  lemma ExemploTrintaDeFevereiro()
    ensures ConverterData(Some("2024-02-30")) == Failure(DataInvalida)
  {
    ValoresDoExemplo();
    TextoDeCampos("2024", "02", "30");
    assert "2024-02-30" == "2024" + "-" + "02" + "-" + "30";
  }

  /** Year 0099 is read by Date as 1999, so the text is refused. */
  lemma ExemploAnoDoisDigitos()
    ensures DataValida(DataCivil(99, 1, 1))
    ensures ConverterData(Some("0099-01-01")) == Failure(DataInvalida)
  {
    ValoresDoExemplo();
    TextoDeCampos("0099", "01", "01");
    assert "0099-01-01" == "0099" + "-" + "01" + "-" + "01";
  }

  lemma ValoresDoExemplo()
    ensures ValorDigitos("2024") == 2024 && ValorDigitos("0099") == 99
    ensures ValorDigitos("01") == 1 && ValorDigitos("02") == 2 && ValorDigitos("06") == 6
    ensures ValorDigitos("10") == 10 && ValorDigitos("13") == 13 && ValorDigitos("30") == 30
  {
    assert "2024"[..3] == "202" && "202"[..2] == "20" && "20"[..1] == "2" && "2"[..0] == "";
    assert "0099"[..3] == "009" && "009"[..2] == "00" && "00"[..1] == "0" && "0"[..0] == "";
    assert "01"[..1] == "0" && "02"[..1] == "0" && "06"[..1] == "0";
    assert "10"[..1] == "1" && "13"[..1] == "1" && "30"[..1] == "3";
    assert "1"[..0] == "" && "3"[..0] == "";
  }
}
