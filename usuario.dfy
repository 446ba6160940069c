/**
  The student directory of models/Usuario.js (`USUARIO`). The table keeps its
  rows in insertion order; its declared constraints (identifier is the primary
  key, e-mail is unique) make the database refuse an insert or update that
  would break them, which the source reports as a generic error.

  `atualizarAluno` assembles the `SET` list of its `UPDATE` as text, one
  `COLUNA = $k` fragment per field supplied, numbering the parameters as it
  goes. The model keeps that text and reads it back the way the database
  does, to show that the statement performs exactly the partial update asked
  for.
*/
module Usuarios {
  import opened Wrappers
  import opened Texto
  import opened Sql
  import opened Consultas

  datatype Usuario = Usuario(
    idUsuario: string,
    nome: string,
    email: string,
    senha: string,
    numeroCelular: Option<string>,
    ativo: bool,
    eAdmin: bool)

  /** A row as `buscarAlunos` selects it: every column but SENHA. */
  datatype AlunoListado = AlunoListado(
    idUsuario: string,
    nome: string,
    email: string,
    numeroCelular: Option<string>,
    ativo: bool,
    eAdmin: bool)

  /**
    The fields `atualizarAluno` reads from its argument; None is a field the
    caller left `undefined`.
  */
  datatype DadosAluno = DadosAluno(
    nome: Option<string>,
    email: Option<string>,
    numCelular: Option<string>,
    ativo: Option<bool>,
    admin: Option<bool>)

  datatype ErroUsuario =
    | NenhumCampo     // no field supplied to the update
    | NaoEncontrado   // no student has that id
    | ErroBanco       // the database refused the statement (key or unique e-mail)

  /** The columns `atualizarAluno` may write. */
  predicate ColunaDeUsuario(c: string) {
    c == "NOME" || c == "EMAIL" || c == "NUMERO_CELULAR" || c == "ATIVO" || c == "E_ADMIN"
  }

  /** The assignment the `n`-th test of `atualizarAluno` adds, if it passes. */
  function Opcional(d: DadosAluno, n: nat): (f: seq<Par>)
    ensures |f| <= 1
    ensures forall k :: 0 <= k < |f| ==> ColunaDeUsuario(f[k].0)
  {
    if n == 1 then (if Verdadeiro(d.nome) then [("NOME", ValorTexto(d.nome.value))] else [])
    else if n == 2 then (if Verdadeiro(d.email) then [("EMAIL", ValorTexto(d.email.value))] else [])
    else if n == 3 then (if Verdadeiro(d.numCelular) then [("NUMERO_CELULAR", ValorTexto(d.numCelular.value))] else [])
    else if n == 4 then (if d.ativo.Some? then [("ATIVO", ValorBool(d.ativo.value))] else [])
    else if n == 5 then (if d.admin.Some? then [("E_ADMIN", ValorBool(d.admin.value))] else [])
    else []
  }

  /** The assignments of the first `n` tests. */
  function CamposAte(d: DadosAluno, n: nat): (f: seq<Par>)
    ensures |f| <= n
    ensures forall k :: 0 <= k < |f| ==> ColunaDeUsuario(f[k].0)
  {
    if n == 0 then []
    else
      var antes := CamposAte(d, n - 1);
      var g := Opcional(d, n);
      assert forall k :: |antes| <= k < |antes + g| ==> (antes + g)[k] == g[k - |antes|];
      antes + g
  }

  /**
    The fields `atualizarAluno` writes, in its fixed order: the three texts
    when truthy, the two flags whenever given (so `false` is written too).
  */
  function CamposFornecidos(d: DadosAluno): (f: seq<Par>)
    ensures |f| <= 5
    ensures forall k :: 0 <= k < |f| ==> ColunaDeUsuario(f[k].0)
  {
    CamposAte(d, 5)
  }

  /** The partial update asked for: each supplied field replaced, the rest kept. */
  function AplicarDados(u: Usuario, d: DadosAluno): Usuario {
    u.(nome := if Verdadeiro(d.nome) then d.nome.value else u.nome,
       email := if Verdadeiro(d.email) then d.email.value else u.email,
       numeroCelular := if Verdadeiro(d.numCelular) then Some(d.numCelular.value) else u.numeroCelular,
       ativo := if d.ativo.Some? then d.ativo.value else u.ativo,
       eAdmin := if d.admin.Some? then d.admin.value else u.eAdmin)
  }

  /** The column a `SET` fragment names, as the database reads it. */
  function ColunaDoFragmento(s: string): Option<string> {
    if "NOME = $" <= s then Some("NOME")
    else if "EMAIL = $" <= s then Some("EMAIL")
    else if "NUMERO_CELULAR = $" <= s then Some("NUMERO_CELULAR")
    else if "ATIVO = $" <= s then Some("ATIVO")
    else if "E_ADMIN = $" <= s then Some("E_ADMIN")
    else None
  }

  /** Writing one column; a value of the wrong kind leaves the row alone. */
  function AtribuirColuna(u: Usuario, c: string, v: Valor): Usuario {
    if c == "NOME" && v.ValorTexto? then u.(nome := v.texto)
    else if c == "EMAIL" && v.ValorTexto? then u.(email := v.texto)
    else if c == "NUMERO_CELULAR" && v.ValorTexto? then u.(numeroCelular := Some(v.texto))
    else if c == "ATIVO" && v.ValorBool? then u.(ativo := v.b)
    else if c == "E_ADMIN" && v.ValorBool? then u.(eAdmin := v.b)
    else u
  }

  /** One `SET` fragment applied with its parameter bound from `valores`. */
  function ExecutarFragmento(u: Usuario, s: string, valores: seq<Valor>): (r: Usuario)
    ensures r.idUsuario == u.idUsuario && r.senha == u.senha
  {
    var c := ColunaDoFragmento(s);
    var k := Marcador(s);
    if c.Some? && k.Some? && 1 <= k.value <= |valores| then AtribuirColuna(u, c.value, valores[k.value - 1])
    else u
  }

  /** The whole `SET` list applied to a row, fragment by fragment; no fragment can name the key (nor, for a student, the password). */
  function ExecutarSet(u: Usuario, campos: seq<string>, valores: seq<Valor>): (r: Usuario)
    ensures r.idUsuario == u.idUsuario && r.senha == u.senha
    decreases |campos|
  {
    if campos == [] then u
    else ExecutarFragmento(ExecutarSet(u, campos[..|campos| - 1], valores), campos[|campos| - 1], valores)
  }

  /** Assignments applied in order. */
  function AplicarPares(u: Usuario, f: seq<Par>): Usuario
    decreases |f|
  {
    if f == [] then u else AtribuirColuna(AplicarPares(u, f[..|f| - 1]), f[|f| - 1].0, f[|f| - 1].1)
  }

  lemma ColunaDeFragmento(c: string, n: nat)
    requires ColunaDeUsuario(c)
    ensures ColunaDoFragmento(Fragmento(c, n)) == Some(c)
  {
    var t := NatParaTexto(n);
    assert Fragmento(c, n) == c + " = $" + t;
    if c == "NOME" {
      PrefixoDaConcatenacao(c + " = $", t);
    } else if c == "EMAIL" {
      FragmentoDeEmail(c, t);
    } else if c == "NUMERO_CELULAR" {
      FragmentoDeCelular(c, t);
    } else if c == "ATIVO" {
      FragmentoDeAtivo(c, t);
    } else {
      FragmentoDeAdmin(c, t);
    }
  }

  lemma FragmentoDeEmail(c: string, t: string)
    requires c == "EMAIL"
    ensures ColunaDoFragmento(c + " = $" + t) == Some(c)
  {
    var s := c + " = $" + t;
    assert c + " = $" == "EMAIL = $";
    PrefixoDaConcatenacao("EMAIL = $", t);
    NaoPrefixo("NOME = $", s, 0);
  }

  lemma FragmentoDeCelular(c: string, t: string)
    requires c == "NUMERO_CELULAR"
    ensures ColunaDoFragmento(c + " = $" + t) == Some(c)
  {
    var s := c + " = $" + t;
    assert c + " = $" == "NUMERO_CELULAR = $";
    PrefixoDaConcatenacao("NUMERO_CELULAR = $", t);
    assert s[1] == 'U';
    NaoPrefixo("NOME = $", s, 1);
    NaoPrefixo("EMAIL = $", s, 0);
  }

  lemma FragmentoDeAtivo(c: string, t: string)
    requires c == "ATIVO"
    ensures ColunaDoFragmento(c + " = $" + t) == Some(c)
  {
    var s := c + " = $" + t;
    assert c + " = $" == "ATIVO = $";
    PrefixoDaConcatenacao("ATIVO = $", t);
    assert s[0] == 'A';
    NaoPrefixo("NOME = $", s, 0);
    NaoPrefixo("EMAIL = $", s, 0);
    NaoPrefixo("NUMERO_CELULAR = $", s, 0);
  }

  lemma FragmentoDeAdmin(c: string, t: string)
    requires c == "E_ADMIN"
    ensures ColunaDoFragmento(c + " = $" + t) == Some(c)
  {
    var s := c + " = $" + t;
    assert c + " = $" == "E_ADMIN = $";
    PrefixoDaConcatenacao("E_ADMIN = $", t);
    assert s[0] == 'E' && s[1] == '_';
    NaoPrefixo("NOME = $", s, 0);
    NaoPrefixo("EMAIL = $", s, 1);
    NaoPrefixo("NUMERO_CELULAR = $", s, 0);
    NaoPrefixo("ATIVO = $", s, 0);
  }

  /** A generated fragment, read back, assigns its column from its parameter. */
  lemma ExecutarUmFragmento(u: Usuario, c: string, n: nat, valores: seq<Valor>)
    requires ColunaDeUsuario(c) && 1 <= n <= |valores|
    ensures ExecutarFragmento(u, Fragmento(c, n), valores) == AtribuirColuna(u, c, valores[n - 1])
  {
    ColunaDeFragmento(c, n);
    MarcadorDeFragmento(c, n);
    ExecutarLido(u, Fragmento(c, n), c, n, valores);
  }

  lemma ExecutarLido(u: Usuario, s: string, c: string, n: nat, valores: seq<Valor>)
    requires ColunaDoFragmento(s) == Some(c) && Marcador(s) == Some(n) && 1 <= n <= |valores|
    ensures ExecutarFragmento(u, s, valores) == AtribuirColuna(u, c, valores[n - 1])
  {
    var col, k := ColunaDoFragmento(s), Marcador(s);
    assert col.value == c && k.value == n;
  }

  /** Reading the generated fragments back performs the assignments they were built from. */
  lemma {:induction false} ExecutarFragmentosDe(u: Usuario, f: seq<Par>, valores: seq<Valor>)
    requires forall k :: 0 <= k < |f| ==> ColunaDeUsuario(f[k].0)
    requires |f| <= |valores| && forall k :: 0 <= k < |f| ==> valores[k] == f[k].1
    ensures ExecutarSet(u, FragmentosDe(f), valores) == AplicarPares(u, f)
    decreases |f|
  {
    if f != [] {
      var n := |f|;
      assert FragmentosDe(f)[..n - 1] == FragmentosDe(f[..n - 1]);
      ExecutarFragmentosDe(u, f[..n - 1], valores);
      ExecutarUmFragmento(ExecutarSet(u, FragmentosDe(f[..n - 1]), valores), f[n - 1].0, n, valores);
    }
  }

  lemma AplicarParesMaisUm(u: Usuario, f: seq<Par>, g: seq<Par>)
    requires |g| <= 1
    ensures AplicarPares(u, f + g) == if g == [] then AplicarPares(u, f) else AtribuirColuna(AplicarPares(u, f), g[0].0, g[0].1)
  {
    if g == [] {
      assert f + g == f;
    } else {
      assert (f + g)[..|f + g| - 1] == f;
    }
  }

  /** The row change the `n`-th test of `atualizarAluno` makes, if it passes. */
  function PassoDados(v: Usuario, d: DadosAluno, n: nat): Usuario {
    if n == 1 then (if Verdadeiro(d.nome) then v.(nome := d.nome.value) else v)
    else if n == 2 then (if Verdadeiro(d.email) then v.(email := d.email.value) else v)
    else if n == 3 then (if Verdadeiro(d.numCelular) then v.(numeroCelular := Some(d.numCelular.value)) else v)
    else if n == 4 then (if d.ativo.Some? then v.(ativo := d.ativo.value) else v)
    else if n == 5 then (if d.admin.Some? then v.(eAdmin := d.admin.value) else v)
    else v
  }

  /** The row changes of the first `n` tests. */
  function AplicarAte(u: Usuario, d: DadosAluno, n: nat): Usuario {
    if n == 0 then u else PassoDados(AplicarAte(u, d, n - 1), d, n)
  }

  /** Assigning the pair the `n`-th test pushes is that test's row change. */
  lemma PassoOpcional(v: Usuario, d: DadosAluno, n: nat)
    requires 1 <= n
    ensures var g := Opcional(d, n);
            (if g == [] then v else AtribuirColuna(v, g[0].0, g[0].1)) == PassoDados(v, d, n)
  {
  }

  lemma {:induction false} AplicarCamposAte(u: Usuario, d: DadosAluno, n: nat)
    ensures AplicarPares(u, CamposAte(d, n)) == AplicarAte(u, d, n)
  {
    if n > 0 {
      AplicarCamposAte(u, d, n - 1);
      AplicarParesMaisUm(u, CamposAte(d, n - 1), Opcional(d, n));
      PassoOpcional(AplicarPares(u, CamposAte(d, n - 1)), d, n);
    }
  }

  /** The supplied fields, assigned in order, are the partial update asked for. */
  lemma AplicarFornecidos(u: Usuario, d: DadosAluno)
    ensures AplicarPares(u, CamposFornecidos(d)) == AplicarDados(u, d)
  {
    AplicarCamposAte(u, d, 5);
    AplicarAteCinco(u, d);
  }

  /** The five tests' row changes, one after the other, are the partial update. */
  lemma AplicarAteCinco(u: Usuario, d: DadosAluno)
    ensures AplicarAte(u, d, 5) == AplicarDados(u, d)
  {
    var u1 := PassoDados(u, d, 1);
    var u2 := PassoDados(u1, d, 2);
    var u3 := PassoDados(u2, d, 3);
    var u4 := PassoDados(u3, d, 4);
    var u5 := PassoDados(u4, d, 5);
    assert AplicarAte(u, d, 0) == u;
    assert AplicarAte(u, d, 1) == u1;
    assert AplicarAte(u, d, 2) == u2;
    assert AplicarAte(u, d, 3) == u3;
    assert AplicarAte(u, d, 4) == u4;
    assert AplicarAte(u, d, 5) == u5;
    var w := Usuario(u.idUsuario,
                     if Verdadeiro(d.nome) then d.nome.value else u.nome,
                     if Verdadeiro(d.email) then d.email.value else u.email,
                     u.senha,
                     if Verdadeiro(d.numCelular) then Some(d.numCelular.value) else u.numeroCelular,
                     if d.ativo.Some? then d.ativo.value else u.ativo,
                     if d.admin.Some? then d.admin.value else u.eAdmin);
    assert u5.idUsuario == u4.idUsuario == u3.idUsuario == u2.idUsuario == u1.idUsuario == w.idUsuario;
    assert u5.senha == u4.senha == u3.senha == u2.senha == u1.senha == w.senha;
    assert u5.nome == u4.nome == u3.nome == u2.nome == u1.nome == w.nome;
    assert u5.email == u4.email == u3.email == u2.email == w.email;
    assert u5.numeroCelular == u4.numeroCelular == u3.numeroCelular == w.numeroCelular;
    assert u5.ativo == u4.ativo == w.ativo;
    assert u5.eAdmin == w.eAdmin;
    assert AplicarDados(u, d) == w;
  }

  /** The assignments of the first `n` tests, `n` at least one, are those of the first `n - 1` and the `n`-th's. */
  lemma CamposAtePasso(d: DadosAluno, n: nat)
    requires 1 <= n
    ensures Opcional(d, n) == [] ==> CamposAte(d, n) == CamposAte(d, n - 1)
    ensures Opcional(d, n) != [] ==> CamposAte(d, n) == CamposAte(d, n - 1) + [Opcional(d, n)[0]]
  {
    var g := Opcional(d, n);
    if g == [] {
      assert CamposAte(d, n - 1) + g == CamposAte(d, n - 1);
    } else {
      assert g == [g[0]];
    }
  }

  /**
    What a built clause means for the fields `d` supplies: one fragment per
    supplied assignment, each naming its column and pointing with `$k+1` at
    its value in position k; the id last, where the `WHERE` parameter (the
    count plus one) points; and, read back as the database reads it, the
    `SET` list performs exactly the partial update.
  */
  ghost predicate ClausulaDe(idUsuario: string, d: DadosAluno, cl: Clausula) {
    var f := CamposFornecidos(d);
    |cl.campos| == |f| && |cl.valores| == |f| + 1 && cl.contador == |f| + 1
    && cl.valores[cl.contador - 1] == ValorTexto(idUsuario)
    && (forall k :: 0 <= k < |f| ==> Marcador(cl.campos[k]) == Some(k + 1))
    && (forall k :: 0 <= k < |f| ==> ColunaDoFragmento(cl.campos[k]) == Some(f[k].0)
                                       && cl.valores[k] == f[k].1)
    && (forall u :: ExecutarSet(u, cl.campos, cl.valores) == AplicarDados(u, d))
  }

  /** What the builder's output means, from the shape it is built in. */
  lemma ClausulaCorreta(idUsuario: string, d: DadosAluno, cl: Clausula)
    requires var f := CamposFornecidos(d);
             cl.campos == FragmentosDe(f) && cl.valores == ValoresDe(f) + [ValorTexto(idUsuario)]
             && cl.contador == |f| + 1
    ensures ClausulaDe(idUsuario, d, cl)
  {
    var f := CamposFornecidos(d);
    MarcadoresConsecutivos(f);
    ColunasDosFragmentos(f, cl.valores);
    ExecutarClausula(d, cl.campos, cl.valores);
  }

  /** Each generated fragment reads back as its column, and its value sits at its position. */
  lemma ColunasDosFragmentos(f: seq<Par>, valores: seq<Valor>)
    requires forall k :: 0 <= k < |f| ==> ColunaDeUsuario(f[k].0)
    requires |f| <= |valores| && valores[..|f|] == ValoresDe(f)
    ensures forall k :: 0 <= k < |f| ==> ColunaDoFragmento(FragmentosDe(f)[k]) == Some(f[k].0)
                                         && valores[k] == f[k].1
  {
    forall k | 0 <= k < |f|
      ensures ColunaDoFragmento(FragmentosDe(f)[k]) == Some(f[k].0) && valores[k] == f[k].1
    {
      FragmentosDeEm(f, k);
      ColunaDeFragmento(f[k].0, k + 1);
      assert valores[k] == valores[..|f|][k];
    }
  }

  /** The generated `SET` list, on any row, is the partial update asked for. */
  lemma ExecutarClausula(d: DadosAluno, campos: seq<string>, valores: seq<Valor>)
    requires var f := CamposFornecidos(d);
             campos == FragmentosDe(f) && |f| <= |valores| && valores[..|f|] == ValoresDe(f)
    ensures forall u :: ExecutarSet(u, campos, valores) == AplicarDados(u, d)
  {
    var f := CamposFornecidos(d);
    forall k | 0 <= k < |f| ensures valores[k] == f[k].1 {
      FragmentosDeEm(f, k);
      assert valores[k] == valores[..|f|][k];
    }
    forall u | true ensures ExecutarSet(u, campos, valores) == AplicarDados(u, d) {
      ExecutarFragmentosDe(u, f, valores);
      AplicarFornecidos(u, d);
    }
  }

  /**
    One text test of `atualizarAluno` (`if (nome) { ... }`): when the field is
    truthy, its fragment is pushed with the current counter, its value after
    the others, and the counter advances; otherwise nothing changes. `n` is
    the test's place in the builder's order.
  */
  method TestarTexto(ghost d: DadosAluno, ghost n: nat, campo: Option<string>, c: string,
                     campos: seq<string>, valores: seq<Valor>, contador: nat)
    returns (campos': seq<string>, valores': seq<Valor>, contador': nat)
    requires 1 <= n <= 5 && Coerente(CamposAte(d, n - 1), campos, valores, contador)
    requires Opcional(d, n) == if Verdadeiro(campo) then [(c, ValorTexto(campo.value))] else []
    ensures Verdadeiro(campo) ==>
              campos' == campos + [Fragmento(c, contador)]
              && valores' == valores + [ValorTexto(campo.value)] && contador' == contador + 1
    ensures !Verdadeiro(campo) ==> campos' == campos && valores' == valores && contador' == contador
    ensures Coerente(CamposAte(d, n), campos', valores', contador')
  {
    CamposAtePasso(d, n);
    campos', valores', contador' := campos, valores, contador;
    if campo.Some? && campo.value != "" {
      CoerenteMaisUm(CamposAte(d, n - 1), c, ValorTexto(campo.value), campos, valores, contador);
      campos' := campos' + [Fragmento(c, contador')];
      valores' := valores' + [ValorTexto(campo.value)];
      contador' := contador' + 1;
    }
  }

  /**
    One flag test of `atualizarAluno` (`if (ativo !== undefined) { ... }`):
    a flag that is given is pushed even when it is `false`.
  */
  method TestarFlag(ghost d: DadosAluno, ghost n: nat, campo: Option<bool>, c: string,
                    campos: seq<string>, valores: seq<Valor>, contador: nat)
    returns (campos': seq<string>, valores': seq<Valor>, contador': nat)
    requires 1 <= n <= 5 && Coerente(CamposAte(d, n - 1), campos, valores, contador)
    requires Opcional(d, n) == if campo.Some? then [(c, ValorBool(campo.value))] else []
    ensures campo.Some? ==>
              campos' == campos + [Fragmento(c, contador)]
              && valores' == valores + [ValorBool(campo.value)] && contador' == contador + 1
    ensures campo.None? ==> campos' == campos && valores' == valores && contador' == contador
    ensures Coerente(CamposAte(d, n), campos', valores', contador')
  {
    CamposAtePasso(d, n);
    campos', valores', contador' := campos, valores, contador;
    if campo.Some? {
      CoerenteMaisUm(CamposAte(d, n - 1), c, ValorBool(campo.value), campos, valores, contador);
      campos' := campos' + [Fragmento(c, contador')];
      valores' := valores' + [ValorBool(campo.value)];
      contador' := contador' + 1;
    }
  }

  /**
    The five tests of `atualizarAluno`, in its order NOME, EMAIL,
    NUMERO_CELULAR, ATIVO, E_ADMIN: one `COLUNA = $k` fragment and one value
    per supplied field, parameters numbered 1, 2, ... in that order.
  */
  method TestarCampos(d: DadosAluno) returns (campos: seq<string>, valores: seq<Valor>, contador: nat)
    ensures Coerente(CamposFornecidos(d), campos, valores, contador)
  {
    campos, valores, contador := TestarTexto(d, 1, d.nome, "NOME", [], [], 1);
    campos, valores, contador := TestarTexto(d, 2, d.email, "EMAIL", campos, valores, contador);
    campos, valores, contador := TestarTexto(d, 3, d.numCelular, "NUMERO_CELULAR", campos, valores, contador);
    campos, valores, contador := TestarFlag(d, 4, d.ativo, "ATIVO", campos, valores, contador);
    campos, valores, contador := TestarFlag(d, 5, d.admin, "E_ADMIN", campos, valores, contador);
  }

  /**
    The `atualizarAluno` statement builder: the fragments and values of the
    supplied fields, followed by the id, which the `WHERE` parameter (the
    count plus one) points at. Fails when no field is supplied.
  */
  method MontarAtualizacaoAluno(idUsuario: string, d: DadosAluno) returns (r: Result<Clausula, ErroUsuario>)
    ensures r.Failure? <==> CamposFornecidos(d) == []
    ensures r.Failure? ==> r.error == NenhumCampo
    ensures r.Success? ==> ClausulaDe(idUsuario, d, r.value)
  {
    var campos, valores, contador := TestarCampos(d);
    if |campos| == 0 {
      return Failure(NenhumCampo);
    }
    r := Success(Clausula(campos, valores + [ValorTexto(idUsuario)], contador));
    ClausulaCorreta(idUsuario, d, r.value);
  }

  /** No two students share an identifier (the primary key). */
  predicate IdsUnicos(linhas: seq<Usuario>) {
    forall i, j :: 0 <= i < j < |linhas| ==> linhas[i].idUsuario != linhas[j].idUsuario
  }

  /** No two students share an e-mail (the UNIQUE column). */
  predicate EmailsUnicos(linhas: seq<Usuario>) {
    forall i, j :: 0 <= i < j < |linhas| ==> linhas[i].email != linhas[j].email
  }

  /** The rows `DELETE FROM USUARIO WHERE ID_USUARIO = id` keeps. */
  function OutroAluno(idUsuario: string): Usuario -> bool {
    (x: Usuario) => x.idUsuario != idUsuario
  }

  /** With unique ids, the delete removes exactly the row with that id, and uniqueness survives. */
  lemma RemocaoDoAluno(linhas: seq<Usuario>, idUsuario: string, k: nat)
    requires IdsUnicos(linhas) && EmailsUnicos(linhas)
    requires k < |linhas| && linhas[k].idUsuario == idUsuario
    ensures Filtrar(linhas, OutroAluno(idUsuario)) == linhas[..k] + linhas[k + 1..]
    ensures IdsUnicos(linhas[..k] + linhas[k + 1..]) && EmailsUnicos(linhas[..k] + linhas[k + 1..])
  {
    var manter := OutroAluno(idUsuario);
    forall i | 0 <= i < |linhas| && i != k ensures manter(linhas[i]) {
      assert linhas[i].idUsuario != linhas[k].idUsuario;
    }
    FiltrarUnico(linhas, manter, k);
    RemoverPreservaPares(linhas, k, (a: Usuario, b: Usuario) => a.idUsuario != b.idUsuario);
    RemoverPreservaPares(linhas, k, (a: Usuario, b: Usuario) => a.email != b.email);
  }

  /** `UPDATE USUARIO SET ... WHERE ID_USUARIO = id` as asked: the partial update on the rows with that id. */
  function Atualizadas(linhas: seq<Usuario>, idUsuario: string, d: DadosAluno): (r: seq<Usuario>)
    ensures |r| == |linhas|
    ensures forall i :: 0 <= i < |r| ==> r[i].idUsuario == linhas[i].idUsuario
    ensures IdsUnicos(linhas) ==> IdsUnicos(r)
  {
    seq(|linhas|, i requires 0 <= i < |linhas| =>
      if linhas[i].idUsuario == idUsuario then AplicarDados(linhas[i], d) else linhas[i])
  }

  /**
    The database running `UPDATE USUARIO SET <campos> WHERE ID_USUARIO = $<contador>`
    with `valores` bound: the `SET` list applied to each row whose id is the
    `WHERE` parameter.
  */
  function ExecutarUpdate(linhas: seq<Usuario>, cl: Clausula): (r: seq<Usuario>)
    requires 1 <= cl.contador <= |cl.valores|
    ensures |r| == |linhas|
    ensures forall i :: 0 <= i < |r| ==> r[i].idUsuario == linhas[i].idUsuario
    ensures IdsUnicos(linhas) ==> IdsUnicos(r)
  {
    seq(|linhas|, i requires 0 <= i < |linhas| =>
      if ValorTexto(linhas[i].idUsuario) == cl.valores[cl.contador - 1]
      then ExecutarSet(linhas[i], cl.campos, cl.valores) else linhas[i])
  }

  /** A statement whose `WHERE` parameter is the id and whose `SET` list is the partial update performs `Atualizadas`. */
  lemma UpdateDaClausula(linhas: seq<Usuario>, idUsuario: string, d: DadosAluno, cl: Clausula)
    requires 1 <= cl.contador <= |cl.valores| && cl.valores[cl.contador - 1] == ValorTexto(idUsuario)
    requires forall u :: ExecutarSet(u, cl.campos, cl.valores) == AplicarDados(u, d)
    ensures ExecutarUpdate(linhas, cl) == Atualizadas(linhas, idUsuario, d)
  {
    var novas := ExecutarUpdate(linhas, cl);
    forall i | 0 <= i < |linhas| ensures novas[i] == Atualizadas(linhas, idUsuario, d)[i] {
      assert (ValorTexto(linhas[i].idUsuario) == cl.valores[cl.contador - 1]) == (linhas[i].idUsuario == idUsuario);
    }
  }

  /** The projection `buscarAlunos` selects. */
  function Listar(u: Usuario): AlunoListado {
    AlunoListado(u.idUsuario, u.nome, u.email, u.numeroCelular, u.ativo, u.eAdmin)
  }

  function Listagem(linhas: seq<Usuario>): seq<AlunoListado> {
    seq(|linhas|, i requires 0 <= i < |linhas| => Listar(linhas[i]))
  }

  /** The sort key of `ORDER BY NOME ASC`. */
  function NomeListado(a: AlunoListado): string {
    a.nome
  }

  class TabelaUsuario {
    var linhas: seq<Usuario>

    ghost predicate Valid()
      reads this
    {
      IdsUnicos(linhas) && EmailsUnicos(linhas)
    }

    constructor ()
      ensures Valid() && linhas == []
    {
      linhas := [];
    }

    /** `verificaAlunoPorEmail`: the first student with that e-mail, if any. */
    function VerificaAlunoPorEmail(email: string): (r: Option<Usuario>)
      reads this
      ensures r.None? <==> forall i :: 0 <= i < |linhas| ==> linhas[i].email != email
      ensures r.Some? ==> r.value in linhas && r.value.email == email
    {
      PrimeiraQue(linhas, (x: Usuario) => x.email == email)
    }

    /** `verificaAlunoPorId`: the first student with that identifier, if any. */
    function VerificaAlunoPorId(idUsuario: string): (r: Option<Usuario>)
      reads this
      ensures r.None? <==> forall i :: 0 <= i < |linhas| ==> linhas[i].idUsuario != idUsuario
      ensures r.Some? ==> r.value in linhas && r.value.idUsuario == idUsuario
    {
      PrimeiraQue(linhas, (x: Usuario) => x.idUsuario == idUsuario)
    }

    /**
      `cadastrarAluno`: insert a student with ATIVO and E_ADMIN at their
      column defaults (true and false). The database refuses a used
      identifier or e-mail. The statement has no `RETURNING`, so a successful
      insert gives back no row.
    */
    method CadastrarAluno(idUsuario: string, nome: string, email: string, senha: string,
                          numeroCelular: Option<string>)
      returns (r: Result<Option<Usuario>, ErroUsuario>)
      requires Valid()
      modifies this
      ensures Valid()
      ensures r.Failure? <==> old(VerificaAlunoPorId(idUsuario)).Some? || old(VerificaAlunoPorEmail(email)).Some?
      ensures r.Failure? ==> r.error == ErroBanco && linhas == old(linhas)
      ensures r.Success? ==>
                r.value == None
                && linhas == old(linhas) + [Usuario(idUsuario, nome, email, senha, numeroCelular, true, false)]
    {
      if VerificaAlunoPorId(idUsuario).Some? || VerificaAlunoPorEmail(email).Some? {
        return Failure(ErroBanco);
      }
      linhas := linhas + [Usuario(idUsuario, nome, email, senha, numeroCelular, true, false)];
      r := Success(None);
    }

    /**
      `atualizarAluno`: build the `UPDATE` and run it. With no field supplied
      nothing is run. The database refuses an update that would give two
      students the same e-mail. Otherwise every row with the id gets the
      partial update; the updated row is returned, or None when no row has the id.
    */
    method AtualizarAluno(idUsuario: string, d: DadosAluno) returns (r: Result<Option<Usuario>, ErroUsuario>)
      requires Valid()
      modifies this
      ensures Valid()
      ensures CamposFornecidos(d) == [] ==> r == Failure(NenhumCampo) && linhas == old(linhas)
      ensures CamposFornecidos(d) != [] && !EmailsUnicos(Atualizadas(old(linhas), idUsuario, d)) ==>
                r == Failure(ErroBanco) && linhas == old(linhas)
      ensures CamposFornecidos(d) != [] && EmailsUnicos(Atualizadas(old(linhas), idUsuario, d)) ==>
                linhas == Atualizadas(old(linhas), idUsuario, d) && r.Success?
                && (r.value.None? <==> forall i :: 0 <= i < |old(linhas)| ==> old(linhas)[i].idUsuario != idUsuario)
                && (r.value.Some? ==> exists i :: 0 <= i < |old(linhas)| && old(linhas)[i].idUsuario == idUsuario
                                                  && r.value.value == AplicarDados(old(linhas)[i], d))
    {
      var montada := MontarAtualizacaoAluno(idUsuario, d);
      if montada.Failure? {
        return Failure(montada.error);
      }
      var cl := montada.value;
      var novas := ExecutarUpdate(linhas, cl);
      UpdateDaClausula(linhas, idUsuario, d, cl);
      if !EmailsUnicos(novas) {
        return Failure(ErroBanco);
      }
      linhas := novas;
      var atualizada := PrimeiraQue(linhas, (x: Usuario) => x.idUsuario == idUsuario);
      r := Success(atualizada);
    }

    /**
      `deletarAluno`: look the student up, fail when there is none, otherwise
      delete the row with that id and return it.
    */
    method DeletarAluno(idUsuario: string) returns (r: Result<Usuario, ErroUsuario>)
      requires Valid()
      modifies this
      ensures Valid()
      ensures r.Failure? <==> forall i :: 0 <= i < |old(linhas)| ==> old(linhas)[i].idUsuario != idUsuario
      ensures r.Failure? ==> r.error == NaoEncontrado && linhas == old(linhas)
      ensures r.Success? ==> exists k :: 0 <= k < |old(linhas)| && old(linhas)[k] == r.value
                                         && r.value.idUsuario == idUsuario
                                         && linhas == old(linhas)[..k] + old(linhas)[k + 1..]
    {
      var existente := VerificaAlunoPorId(idUsuario);
      if existente.None? {
        return Failure(NaoEncontrado);
      }
      ghost var k :| 0 <= k < |linhas| && linhas[k] == existente.value;
      assert linhas[k].idUsuario == idUsuario;
      RemocaoDoAluno(linhas, idUsuario, k);
      linhas := Filtrar(linhas, OutroAluno(idUsuario));
      r := Success(existente.value);
    }

    /** `buscarAlunos`: every student without the password, ordered by name. */
    function BuscarAlunos(): (r: seq<AlunoListado>)
      reads this
      ensures Ordenada(r, NomeListado)
      ensures multiset(r) == multiset(Listagem(linhas))
      ensures forall i :: 0 <= i < |linhas| ==> Listar(linhas[i]) in r
      ensures forall a :: a in r ==> exists i :: 0 <= i < |linhas| && a == Listar(linhas[i])
    {
      var l := Listagem(linhas);
      assert |l| == |linhas| && forall i :: 0 <= i < |l| ==> l[i] == Listar(linhas[i]);
      var r := OrdenarPor(l, NomeListado);
      assert forall a :: a in r <==> a in multiset(l);
      r
    }
  }
}
