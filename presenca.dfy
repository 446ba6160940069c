/**
  The attendance table of models/Presenca.js (`PRESENCA`): one row per
  student, call date and bus, with the declared intent to ride out (`vai`) and
  back (`volta`) and the confirmed boardings (`presencaIda`, `presencaVolta`).

  The database table is a sequence of rows in insertion order; each SQL
  statement the source issues becomes a method or a function over it. The
  clock is passed in: today's date as a `DataCivil`, the current hour as a
  number. A new record's identifier is passed in too, with the promise that no
  row already uses it (what a random UUID gives in practice).
*/
module Presencas {
  import opened Wrappers
  import opened Calendario
  import opened Consultas

  /**
    A row of PRESENCA. The four flags are stored as the caller sent them:
    `None` is SQL NULL, what an argument left `undefined` becomes.
  */
  datatype Presenca = Presenca(
    idPresenca: string,
    dataChamada: string,
    diaSemana: string,
    vai: Option<bool>,
    volta: Option<bool>,
    presencaIda: Option<bool>,
    presencaVolta: Option<bool>,
    idUsuario: string,
    idOnibus: string)

  datatype ErroPresenca =
    | ErroDeData(motivo: ErroData)      // converterData refused the date
    | JaRegistrada(diaSemana: string)   // the student already has a record that day
    | FimDeSemana(diaSemana: string)    // the date is a Saturday or a Sunday
    | NaoEncontrada                     // no record has that id

  /** No two rows share an identifier. */
  predicate IdsUnicos(linhas: seq<Presenca>) {
    forall i, j :: 0 <= i < j < |linhas| ==> linhas[i].idPresenca != linhas[j].idPresenca
  }

  /** At most one record per student and call date, whatever the bus. */
  predicate UmaPorAlunoEData(linhas: seq<Presenca>) {
    forall i, j :: 0 <= i < j < |linhas| ==>
      !(linhas[i].idUsuario == linhas[j].idUsuario && linhas[i].dataChamada == linhas[j].dataChamada)
  }

  predicate DoAlunoNaData(x: Presenca, idUsuario: string, data: string) {
    x.idUsuario == idUsuario && x.dataChamada == data
  }

  /**
    `UPDATE PRESENCA SET ... WHERE ID_PRESENCA = id`: `f` rewrites the matching
    rows and leaves their identifier, student and date alone.
  */
  function AtualizarPorId(linhas: seq<Presenca>, id: string, f: Presenca -> Presenca): (r: seq<Presenca>)
    requires forall x :: f(x).idPresenca == x.idPresenca && f(x).idUsuario == x.idUsuario
                         && f(x).dataChamada == x.dataChamada
    ensures |r| == |linhas|
    ensures forall i :: 0 <= i < |r| ==> r[i] == if linhas[i].idPresenca == id then f(linhas[i]) else linhas[i]
    ensures IdsUnicos(linhas) ==> IdsUnicos(r)
    ensures UmaPorAlunoEData(linhas) ==> UmaPorAlunoEData(r)
  {
    seq(|linhas|, i requires 0 <= i < |linhas| => if linhas[i].idPresenca == id then f(linhas[i]) else linhas[i])
  }

  /** The confirmation flags `atualizarPresenca` writes at a given hour of the day. */
  method ConfirmacaoPorHora(hora: int) returns (ida: bool, volta: bool)
    ensures ida <==> hora < 18
    ensures volta <==> hora > 18
    ensures !(ida && volta)
    ensures hora == 18 ==> !ida && !volta
  {
    ida := false;
    volta := false;
    if hora < 18 {
      ida := true;
    }
    if hora > 18 {
      volta := true;
    }
  }

  class TabelaPresenca {
    var linhas: seq<Presenca>

    ghost predicate Valid()
      reads this
    {
      IdsUnicos(linhas) && UmaPorAlunoEData(linhas)
    }

    /** The identifier is not used by any row. */
    predicate IdLivre(id: string)
      reads this
    {
      forall i :: 0 <= i < |linhas| ==> linhas[i].idPresenca != id
    }

    constructor ()
      ensures Valid() && linhas == []
    {
      linhas := [];
    }

    /** `verificaPresenca`: the record of a student on a call date, on any bus. */
    function VerificaPresenca(idUsuario: string, data: string): (r: Option<Presenca>)
      reads this
      ensures r.None? <==> forall i :: 0 <= i < |linhas| ==> !DoAlunoNaData(linhas[i], idUsuario, data)
      ensures r.Some? ==> r.value in linhas && DoAlunoNaData(r.value, idUsuario, data)
    {
      PrimeiraQue(linhas, (x: Presenca) => DoAlunoNaData(x, idUsuario, data))
    }

    /** `validarPresenca`: today's record of a student on one bus. */
    function ValidarPresenca(idOnibus: string, idUsuario: string, hoje: DataCivil): (r: Option<Presenca>)
      reads this
      ensures r.None? <==> forall i :: 0 <= i < |linhas| ==>
                !(DoAlunoNaData(linhas[i], idUsuario, PegarDataHoje(hoje)) && linhas[i].idOnibus == idOnibus)
      ensures r.Some? ==> exists i :: (0 <= i < |linhas| && linhas[i] == r.value
                && DoAlunoNaData(r.value, idUsuario, PegarDataHoje(hoje)) && r.value.idOnibus == idOnibus
                && forall j :: 0 <= j < i ==>
                     !(DoAlunoNaData(linhas[j], idUsuario, PegarDataHoje(hoje)) && linhas[j].idOnibus == idOnibus))
    {
      var data := PegarDataHoje(hoje);
      PrimeiraQue(linhas, (x: Presenca) => DoAlunoNaData(x, idUsuario, data) && x.idOnibus == idOnibus)
    }

    /** `buscarPresencas`: every record of a student, in table order. */
    function BuscarPresencas(idUsuario: string): (r: seq<Presenca>)
      reads this
      ensures forall x :: x in r <==> x in linhas && x.idUsuario == idUsuario
      ensures forall x :: multiset(r)[x] == if x.idUsuario == idUsuario then multiset(linhas)[x] else 0
    {
      Filtrar(linhas, (x: Presenca) => x.idUsuario == idUsuario)
    }

    /** `buscarPresencasPorData`: every record whose call date is today's text. */
    function BuscarPresencasPorData(hoje: DataCivil): (r: seq<Presenca>)
      reads this
      ensures forall x :: x in r <==> x in linhas && x.dataChamada == PegarDataHoje(hoje)
      ensures forall x :: multiset(r)[x] == if x.dataChamada == PegarDataHoje(hoje) then multiset(linhas)[x] else 0
    {
      var data := PegarDataHoje(hoje);
      Filtrar(linhas, (x: Presenca) => x.dataChamada == data)
    }

    /**
      `registrarPresenca`: parse the date, name its weekday, refuse a second
      record for the same student and date (whatever the bus), refuse
      weekends, then insert. Each refusal leaves the table as it was.
    */
    method RegistrarPresenca(
      idUsuario: string, idOnibus: string, vai: Option<bool>, volta: Option<bool>, data: Option<string>,
      presencaIda: Option<bool>, presencaVolta: Option<bool>, idNovo: string)
      returns (r: Result<Presenca, ErroPresenca>)
      requires Valid()
      requires IdLivre(idNovo)
      modifies this
      ensures Valid()
      ensures ConverterData(data).Failure? ==>
                r == Failure(ErroDeData(ConverterData(data).error)) && linhas == old(linhas)
      ensures ConverterData(data).Success? ==>
                var dia := ObterDiaSemana(ConverterData(data).value);
                if old(VerificaPresenca(idUsuario, data.value)).Some? then
                  r == Failure(JaRegistrada(dia)) && linhas == old(linhas)
                else if !VerificarDiaSemana(dia) then
                  r == Failure(FimDeSemana(dia)) && linhas == old(linhas)
                else
                  r == Success(Presenca(idNovo, data.value, dia, vai, volta,
                                        presencaIda, presencaVolta, idUsuario, idOnibus))
                  && linhas == old(linhas) + [r.value]
    {
      var convertida := ConverterData(data);
      if convertida.Failure? {
        return Failure(ErroDeData(convertida.error));
      }
      var dataFormatada := data.value;
      var diaSemana := ObterDiaSemana(convertida.value);

      var existente := VerificaPresenca(idUsuario, dataFormatada);
      if existente.Some? {
        return Failure(JaRegistrada(diaSemana));
      }

      if !VerificarDiaSemana(diaSemana) {
        return Failure(FimDeSemana(diaSemana));
      }

      var nova := Presenca(idNovo, dataFormatada, diaSemana, vai, volta,
                           presencaIda, presencaVolta, idUsuario, idOnibus);
      linhas := linhas + [nova];
      r := Success(nova);
    }

    /**
      `atualizarPresenca`: set the confirmation flags from the hour of the day
      and overwrite the intents with the values given (None is NULL), on the
      row with that id. Returns the updated row, or None when no row has the
      id (the source returns `undefined`).
    */
    method AtualizarPresenca(idPresenca: string, vai: Option<bool>, volta: Option<bool>, hora: int)
      returns (r: Option<Presenca>)
      requires Valid()
      modifies this
      ensures Valid()
      ensures |linhas| == |old(linhas)|
      ensures forall i :: 0 <= i < |linhas| ==>
                linhas[i] == if old(linhas)[i].idPresenca == idPresenca
                             then old(linhas)[i].(presencaIda := Some(hora < 18), presencaVolta := Some(hora > 18),
                                                  vai := vai, volta := volta)
                             else old(linhas)[i]
      ensures r.Some? <==> exists i :: 0 <= i < |old(linhas)| && old(linhas)[i].idPresenca == idPresenca
      ensures r.Some? ==> r.value in linhas && r.value.idPresenca == idPresenca
                          && r.value.presencaIda == Some(hora < 18) && r.value.presencaVolta == Some(hora > 18)
                          && r.value.vai == vai && r.value.volta == volta
    {
      var ida, voltaConfirmada := ConfirmacaoPorHora(hora);
      linhas := AtualizarPorId(linhas, idPresenca,
                  (x: Presenca) => x.(presencaIda := Some(ida), presencaVolta := Some(voltaConfirmada),
                                      vai := vai, volta := volta));
      r := PrimeiraQue(linhas, (x: Presenca) => x.idPresenca == idPresenca);
    }

    /**
      `mudarStatusPresenca`: write both confirmation flags, as given, on the
      row with that id, or fail when no row has it. A flag the caller left out
      is written as NULL.
    */
    method MudarStatusPresenca(idPresenca: string, presencaIda: Option<bool>, presencaVolta: Option<bool>)
      returns (r: Result<Presenca, ErroPresenca>)
      requires Valid()
      modifies this
      ensures Valid()
      ensures |linhas| == |old(linhas)|
      ensures forall i :: 0 <= i < |linhas| ==>
                linhas[i] == if old(linhas)[i].idPresenca == idPresenca
                             then old(linhas)[i].(presencaIda := presencaIda, presencaVolta := presencaVolta)
                             else old(linhas)[i]
      ensures r.Failure? <==> forall i :: 0 <= i < |old(linhas)| ==> old(linhas)[i].idPresenca != idPresenca
      ensures r.Failure? ==> r.error == NaoEncontrada && linhas == old(linhas)
      ensures r.Success? ==> r.value in linhas && r.value.idPresenca == idPresenca
                             && r.value.presencaIda == presencaIda
                             && r.value.presencaVolta == presencaVolta
    {
      linhas := AtualizarPorId(linhas, idPresenca,
                  (x: Presenca) => x.(presencaIda := presencaIda, presencaVolta := presencaVolta));
      var atualizada := PrimeiraQue(linhas, (x: Presenca) => x.idPresenca == idPresenca);
      if atualizada.None? {
        return Failure(NaoEncontrada);
      }
      r := Success(atualizada.value);
    }

    /** `deletarPresenca`: remove every record of the student; succeeds even when there is none. */
    method DeletarPresenca(idUsuario: string) returns (ok: bool)
      requires Valid()
      modifies this
      ensures Valid() && ok
      ensures forall x :: x in linhas <==> x in old(linhas) && x.idUsuario != idUsuario
      ensures forall x :: multiset(linhas)[x] == if x.idUsuario != idUsuario then multiset(old(linhas))[x] else 0
    {
      var manter := (x: Presenca) => x.idUsuario != idUsuario;
      FiltrarPreservaPares(linhas, manter, (a: Presenca, b: Presenca) => a.idPresenca != b.idPresenca);
      FiltrarPreservaPares(linhas, manter,
        (a: Presenca, b: Presenca) => !(a.idUsuario == b.idUsuario && a.dataChamada == b.dataChamada));
      linhas := Filtrar(linhas, manter);
      ok := true;
    }
  }
}
