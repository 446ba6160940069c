/**
  The bus directory of models/Onibus.js (`ONIBUS`). Rows are kept in
  insertion order; the identifier is the primary key, so the database refuses
  an insert that repeats it. Bus names are not unique.

  `atualizarOnibus` builds its `UPDATE` with the same `COLUNA = $k` pattern
  as the student directory, over two optional texts.
*/
module Frota {
  import opened Wrappers
  import opened Texto
  import opened Sql
  import opened Consultas

  /** A row of ONIBUS; DESCRICAO may be NULL. */
  datatype Onibus = Onibus(idOnibus: string, nomeOnibus: string, descricao: Option<string>)

  /** The fields `atualizarOnibus` reads from its argument; None is `undefined`. */
  datatype DadosOnibus = DadosOnibus(nomeOnibus: Option<string>, descricao: Option<string>)

  datatype ErroOnibus =
    | NenhumCampo     // no field supplied to the update
    | NaoEncontrado   // no bus has that id
    | ErroBanco       // the database refused the statement (primary key)

  predicate ColunaDeOnibus(c: string) {
    c == "NOME_ONIBUS" || c == "DESCRICAO"
  }

  /** The fields `atualizarOnibus` writes, in its order: NOME_ONIBUS, then DESCRICAO, each when truthy. */
  function CamposFornecidos(d: DadosOnibus): (f: seq<Par>)
    ensures |f| <= 2
    ensures forall k :: 0 <= k < |f| ==> ColunaDeOnibus(f[k].0)
  {
    (if Verdadeiro(d.nomeOnibus) then [("NOME_ONIBUS", ValorTexto(d.nomeOnibus.value))] else [])
    + (if Verdadeiro(d.descricao) then [("DESCRICAO", ValorTexto(d.descricao.value))] else [])
  }

  /** The partial update asked for. */
  function AplicarDados(o: Onibus, d: DadosOnibus): Onibus {
    o.(nomeOnibus := if Verdadeiro(d.nomeOnibus) then d.nomeOnibus.value else o.nomeOnibus,
       descricao := if Verdadeiro(d.descricao) then Some(d.descricao.value) else o.descricao)
  }

  /** The column a `SET` fragment names, as the database reads it. */
  function ColunaDoFragmento(s: string): Option<string> {
    if "NOME_ONIBUS = $" <= s then Some("NOME_ONIBUS")
    else if "DESCRICAO = $" <= s then Some("DESCRICAO")
    else None
  }

  /** Writing one column; a value of the wrong kind leaves the row alone. */
  function AtribuirColuna(o: Onibus, c: string, v: Valor): Onibus {
    if c == "NOME_ONIBUS" && v.ValorTexto? then o.(nomeOnibus := v.texto)
    else if c == "DESCRICAO" && v.ValorTexto? then o.(descricao := Some(v.texto))
    else o
  }

  function ExecutarFragmento(o: Onibus, s: string, valores: seq<Valor>): (r: Onibus)
    ensures r.idOnibus == o.idOnibus
  {
    var c := ColunaDoFragmento(s);
    var k := Marcador(s);
    if c.Some? && k.Some? && 1 <= k.value <= |valores| then AtribuirColuna(o, c.value, valores[k.value - 1])
    else o
  }

  /** The whole `SET` list applied to a row, fragment by fragment; no fragment can name the key. */
  function ExecutarSet(o: Onibus, campos: seq<string>, valores: seq<Valor>): (r: Onibus)
    ensures r.idOnibus == o.idOnibus
    decreases |campos|
  {
    if campos == [] then o
    else ExecutarFragmento(ExecutarSet(o, campos[..|campos| - 1], valores), campos[|campos| - 1], valores)
  }

  function AplicarPares(o: Onibus, f: seq<Par>): Onibus
    decreases |f|
  {
    if f == [] then o else AtribuirColuna(AplicarPares(o, f[..|f| - 1]), f[|f| - 1].0, f[|f| - 1].1)
  }

  lemma ColunaDeFragmento(c: string, n: nat)
    requires ColunaDeOnibus(c)
    ensures ColunaDoFragmento(Fragmento(c, n)) == Some(c)
  {
    var t := NatParaTexto(n);
    assert Fragmento(c, n) == c + " = $" + t;
    if c == "NOME_ONIBUS" {
      PrefixoDaConcatenacao(c + " = $", t);
    } else {
      FragmentoDeDescricao(c, t);
    }
  }

  lemma FragmentoDeDescricao(c: string, t: string)
    requires c == "DESCRICAO"
    ensures ColunaDoFragmento(c + " = $" + t) == Some(c)
  {
    var s := c + " = $" + t;
    assert c + " = $" == "DESCRICAO = $";
    PrefixoDaConcatenacao("DESCRICAO = $", t);
    assert s[0] == 'D';
    NaoPrefixo("NOME_ONIBUS = $", s, 0);
  }

  lemma ExecutarUmFragmento(o: Onibus, c: string, n: nat, valores: seq<Valor>)
    requires ColunaDeOnibus(c) && 1 <= n <= |valores|
    ensures ExecutarFragmento(o, Fragmento(c, n), valores) == AtribuirColuna(o, c, valores[n - 1])
  {
    ColunaDeFragmento(c, n);
    MarcadorDeFragmento(c, n);
    ExecutarLido(o, Fragmento(c, n), c, n, valores);
  }

  lemma ExecutarLido(o: Onibus, s: string, c: string, n: nat, valores: seq<Valor>)
    requires ColunaDoFragmento(s) == Some(c) && Marcador(s) == Some(n) && 1 <= n <= |valores|
    ensures ExecutarFragmento(o, s, valores) == AtribuirColuna(o, c, valores[n - 1])
  {
    var col, k := ColunaDoFragmento(s), Marcador(s);
    assert col.value == c && k.value == n;
  }

  /** Reading the generated fragments back performs the assignments they were built from. */
  lemma {:induction false} ExecutarFragmentosDe(o: Onibus, f: seq<Par>, valores: seq<Valor>)
    requires forall k :: 0 <= k < |f| ==> ColunaDeOnibus(f[k].0)
    requires |f| <= |valores| && forall k :: 0 <= k < |f| ==> valores[k] == f[k].1
    ensures ExecutarSet(o, FragmentosDe(f), valores) == AplicarPares(o, f)
    decreases |f|
  {
    if f != [] {
      var n := |f|;
      assert FragmentosDe(f)[..n - 1] == FragmentosDe(f[..n - 1]);
      ExecutarFragmentosDe(o, f[..n - 1], valores);
      ExecutarUmFragmento(ExecutarSet(o, FragmentosDe(f[..n - 1]), valores), f[n - 1].0, n, valores);
    }
  }

  /** The supplied fields, assigned in order, are the partial update asked for. */
  lemma AplicarFornecidos(o: Onibus, d: DadosOnibus)
    ensures AplicarPares(o, CamposFornecidos(d)) == AplicarDados(o, d)
  {
    var f := CamposFornecidos(d);
    if |f| == 2 {
      var o1 := AtribuirColuna(o, f[0].0, f[0].1);
      assert f[..1][..0] == [];
      assert AplicarPares(o, f[..1]) == o1;
      assert o1 == o.(nomeOnibus := d.nomeOnibus.value);
    } else if |f| == 1 {
      assert f[..0] == [];
    }
  }

  /**
    What a built clause means for the fields `d` supplies: one fragment per
    supplied assignment, each naming its column and pointing with `$k+1` at
    its value in position k; the id last, where the `WHERE` parameter (the
    count plus one) points; and, read back as the database reads it, the
    `SET` list performs exactly the partial update.
  */
  ghost predicate ClausulaDe(idOnibus: string, d: DadosOnibus, cl: Clausula) {
    var f := CamposFornecidos(d);
    |cl.campos| == |f| && |cl.valores| == |f| + 1 && cl.contador == |f| + 1
    && cl.valores[cl.contador - 1] == ValorTexto(idOnibus)
    && (forall k :: 0 <= k < |f| ==> Marcador(cl.campos[k]) == Some(k + 1))
    && (forall k :: 0 <= k < |f| ==> ColunaDoFragmento(cl.campos[k]) == Some(f[k].0)
                                       && cl.valores[k] == f[k].1)
    && (forall o :: ExecutarSet(o, cl.campos, cl.valores) == AplicarDados(o, d))
  }

  /** What the builder's output means, from the shape it is built in. */
  lemma ClausulaCorreta(idOnibus: string, d: DadosOnibus, cl: Clausula)
    requires var f := CamposFornecidos(d);
             cl.campos == FragmentosDe(f) && cl.valores == ValoresDe(f) + [ValorTexto(idOnibus)]
             && cl.contador == |f| + 1
    ensures ClausulaDe(idOnibus, d, cl)
  {
    var f := CamposFornecidos(d);
    MarcadoresConsecutivos(f);
    forall k | 0 <= k < |f|
      ensures ColunaDoFragmento(cl.campos[k]) == Some(f[k].0) && cl.valores[k] == f[k].1
    {
      FragmentosDeEm(f, k);
      ColunaDeFragmento(f[k].0, k + 1);
    }
    forall o | true ensures ExecutarSet(o, cl.campos, cl.valores) == AplicarDados(o, d) {
      ExecutarFragmentosDe(o, f, cl.valores);
      AplicarFornecidos(o, d);
    }
  }

  /**
    The `atualizarOnibus` statement builder: `NOME_ONIBUS = $k` and then
    `DESCRICAO = $k` for the truthy fields, parameters numbered from 1; the
    values in the same order followed by the id, which the `WHERE` parameter
    (the count plus one) points at. Fails when no field is supplied.
  */
  method MontarAtualizacaoOnibus(idOnibus: string, d: DadosOnibus) returns (r: Result<Clausula, ErroOnibus>)
    ensures r.Failure? <==> CamposFornecidos(d) == []
    ensures r.Failure? ==> r.error == NenhumCampo
    ensures r.Success? ==> ClausulaDe(idOnibus, d, r.value)
  {
    var campos: seq<string> := [];
    var valores: seq<Valor> := [];
    var contador: nat := 1;
    // f: the assignments pushed so far.
    ghost var f: seq<Par> := [];

    if d.nomeOnibus.Some? && d.nomeOnibus.value != "" {
      CoerenteMaisUm(f, "NOME_ONIBUS", ValorTexto(d.nomeOnibus.value), campos, valores, contador);
      campos := campos + [Fragmento("NOME_ONIBUS", contador)];
      valores := valores + [ValorTexto(d.nomeOnibus.value)];
      contador := contador + 1;
      f := f + [("NOME_ONIBUS", ValorTexto(d.nomeOnibus.value))];
    }
    if d.descricao.Some? && d.descricao.value != "" {
      CoerenteMaisUm(f, "DESCRICAO", ValorTexto(d.descricao.value), campos, valores, contador);
      campos := campos + [Fragmento("DESCRICAO", contador)];
      valores := valores + [ValorTexto(d.descricao.value)];
      contador := contador + 1;
      f := f + [("DESCRICAO", ValorTexto(d.descricao.value))];
    }
    assert f == CamposFornecidos(d);

    if |campos| == 0 {
      return Failure(NenhumCampo);
    }

    valores := valores + [ValorTexto(idOnibus)];
    r := Success(Clausula(campos, valores, contador));
    ClausulaCorreta(idOnibus, d, r.value);
  }

  /** No two buses share an identifier (the primary key). */
  predicate IdsUnicos(linhas: seq<Onibus>) {
    forall i, j :: 0 <= i < j < |linhas| ==> linhas[i].idOnibus != linhas[j].idOnibus
  }
  /** The rows `DELETE FROM ONIBUS WHERE ID_ONIBUS = id` keeps. */
  function OutroOnibus(idOnibus: string): Onibus -> bool {
    (x: Onibus) => x.idOnibus != idOnibus
  }

  /** With unique ids, the delete removes exactly the row with that id, and uniqueness survives. */
  lemma RemocaoDoOnibus(linhas: seq<Onibus>, idOnibus: string, k: nat)
    requires IdsUnicos(linhas)
    requires k < |linhas| && linhas[k].idOnibus == idOnibus
    ensures Filtrar(linhas, OutroOnibus(idOnibus)) == linhas[..k] + linhas[k + 1..]
    ensures IdsUnicos(linhas[..k] + linhas[k + 1..])
  {
    var manter := OutroOnibus(idOnibus);
    forall i | 0 <= i < |linhas| && i != k ensures manter(linhas[i]) {
      assert linhas[i].idOnibus != linhas[k].idOnibus;
    }
    FiltrarUnico(linhas, manter, k);
    RemoverPreservaPares(linhas, k, (a: Onibus, b: Onibus) => a.idOnibus != b.idOnibus);
  }


  /** `UPDATE ONIBUS SET ... WHERE ID_ONIBUS = id` as asked: the partial update on the rows with that id. */
  function Atualizadas(linhas: seq<Onibus>, idOnibus: string, d: DadosOnibus): (r: seq<Onibus>)
    ensures |r| == |linhas|
    ensures forall i :: 0 <= i < |r| ==> r[i].idOnibus == linhas[i].idOnibus
    ensures IdsUnicos(linhas) ==> IdsUnicos(r)
  {
    seq(|linhas|, i requires 0 <= i < |linhas| =>
      if linhas[i].idOnibus == idOnibus then AplicarDados(linhas[i], d) else linhas[i])
  }

  /** The database running the built `UPDATE ONIBUS ... WHERE ID_ONIBUS = $<contador>`. */
  function ExecutarUpdate(linhas: seq<Onibus>, cl: Clausula): (r: seq<Onibus>)
    requires 1 <= cl.contador <= |cl.valores|
    ensures |r| == |linhas|
    ensures forall i :: 0 <= i < |r| ==> r[i].idOnibus == linhas[i].idOnibus
    ensures IdsUnicos(linhas) ==> IdsUnicos(r)
  {
    seq(|linhas|, i requires 0 <= i < |linhas| =>
      if ValorTexto(linhas[i].idOnibus) == cl.valores[cl.contador - 1]
      then ExecutarSet(linhas[i], cl.campos, cl.valores) else linhas[i])
  }

  lemma UpdateDaClausula(linhas: seq<Onibus>, idOnibus: string, d: DadosOnibus, cl: Clausula)
    requires 1 <= cl.contador <= |cl.valores| && cl.valores[cl.contador - 1] == ValorTexto(idOnibus)
    requires forall o :: ExecutarSet(o, cl.campos, cl.valores) == AplicarDados(o, d)
    ensures ExecutarUpdate(linhas, cl) == Atualizadas(linhas, idOnibus, d)
  {
    var novas := ExecutarUpdate(linhas, cl);
    forall i | 0 <= i < |linhas| ensures novas[i] == Atualizadas(linhas, idOnibus, d)[i] {
      assert (ValorTexto(linhas[i].idOnibus) == cl.valores[cl.contador - 1]) == (linhas[i].idOnibus == idOnibus);
    }
  }

  /** The sort key of `ORDER BY NOME_ONIBUS ASC`. */
  function NomeDoOnibus(o: Onibus): string {
    o.nomeOnibus
  }

  class TabelaOnibus {
    var linhas: seq<Onibus>

    ghost predicate Valid()
      reads this
    {
      IdsUnicos(linhas)
    }

    constructor ()
      ensures Valid() && linhas == []
    {
      linhas := [];
    }

    /** `verificaOnibusPorNome`: the first bus with that name, if any. */
    function VerificaOnibusPorNome(nomeOnibus: string): (r: Option<Onibus>)
      reads this
      ensures r.None? <==> forall i :: 0 <= i < |linhas| ==> linhas[i].nomeOnibus != nomeOnibus
      ensures r.Some? ==> r.value in linhas && r.value.nomeOnibus == nomeOnibus
    {
      PrimeiraQue(linhas, (x: Onibus) => x.nomeOnibus == nomeOnibus)
    }

    /** `verificaOnibusPorId`: the bus with that identifier, if any. */
    function VerificaOnibusPorId(idOnibus: string): (r: Option<Onibus>)
      reads this
      ensures r.None? <==> forall i :: 0 <= i < |linhas| ==> linhas[i].idOnibus != idOnibus
      ensures r.Some? ==> r.value in linhas && r.value.idOnibus == idOnibus
    {
      PrimeiraQue(linhas, (x: Onibus) => x.idOnibus == idOnibus)
    }

    /** `cadastrarOnibus`: insert the bus and return the inserted row; a used id is refused. */
    method CadastrarOnibus(idOnibus: string, nomeOnibus: string, descricao: Option<string>)
      returns (r: Result<Onibus, ErroOnibus>)
      requires Valid()
      modifies this
      ensures Valid()
      ensures r.Failure? <==> old(VerificaOnibusPorId(idOnibus)).Some?
      ensures r.Failure? ==> r.error == ErroBanco && linhas == old(linhas)
      ensures r.Success? ==> r.value == Onibus(idOnibus, nomeOnibus, descricao) && linhas == old(linhas) + [r.value]
    {
      if VerificaOnibusPorId(idOnibus).Some? {
        return Failure(ErroBanco);
      }
      var novo := Onibus(idOnibus, nomeOnibus, descricao);
      linhas := linhas + [novo];
      r := Success(novo);
    }

    /**
      `atualizarOnibus`: build the `UPDATE` and run it; nothing is run when no
      field is supplied. The updated row is returned, or None when no bus has
      the id.
    */
    method AtualizarOnibus(idOnibus: string, d: DadosOnibus) returns (r: Result<Option<Onibus>, ErroOnibus>)
      requires Valid()
      modifies this
      ensures Valid()
      ensures r.Failure? <==> CamposFornecidos(d) == []
      ensures r.Failure? ==> r.error == NenhumCampo && linhas == old(linhas)
      ensures r.Success? ==>
                linhas == Atualizadas(old(linhas), idOnibus, d)
                && (r.value.None? <==> forall i :: 0 <= i < |old(linhas)| ==> old(linhas)[i].idOnibus != idOnibus)
                && (r.value.Some? ==> exists i :: 0 <= i < |old(linhas)| && old(linhas)[i].idOnibus == idOnibus
                                                  && r.value.value == AplicarDados(old(linhas)[i], d))
    {
      var montada := MontarAtualizacaoOnibus(idOnibus, d);
      if montada.Failure? {
        return Failure(montada.error);
      }
      var cl := montada.value;
      UpdateDaClausula(linhas, idOnibus, d, cl);
      linhas := ExecutarUpdate(linhas, cl);
      var atualizado := PrimeiraQue(linhas, (x: Onibus) => x.idOnibus == idOnibus);
      r := Success(atualizado);
    }

    /** `deletarOnibus`: fail when no bus has the id, otherwise delete that row and return it. */
    method DeletarOnibus(idOnibus: string) returns (r: Result<Onibus, ErroOnibus>)
      requires Valid()
      modifies this
      ensures Valid()
      ensures r.Failure? <==> forall i :: 0 <= i < |old(linhas)| ==> old(linhas)[i].idOnibus != idOnibus
      ensures r.Failure? ==> r.error == NaoEncontrado && linhas == old(linhas)
      ensures r.Success? ==> exists k :: 0 <= k < |old(linhas)| && old(linhas)[k] == r.value
                                         && r.value.idOnibus == idOnibus
                                         && linhas == old(linhas)[..k] + old(linhas)[k + 1..]
    {
      var existente := VerificaOnibusPorId(idOnibus);
      if existente.None? {
        return Failure(NaoEncontrado);
      }
      ghost var k :| 0 <= k < |linhas| && linhas[k] == existente.value;
      assert linhas[k].idOnibus == idOnibus;
      RemocaoDoOnibus(linhas, idOnibus, k);
      linhas := Filtrar(linhas, OutroOnibus(idOnibus));
      r := Success(existente.value);
    }

    /** `buscarOnibus`: every bus, ordered by name. */
    function BuscarOnibus(): (r: seq<Onibus>)
      reads this
      ensures Ordenada(r, NomeDoOnibus)
      ensures multiset(r) == multiset(linhas)
      ensures forall o :: o in r <==> o in linhas
    {
      var r := OrdenarPor(linhas, NomeDoOnibus);
      assert forall o :: o in r <==> o in multiset(linhas);
      r
    }
  }
}
