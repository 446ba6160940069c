/**
  The `SET` fragments the directory updates build as text (`NOME = $1`), and
  how the database reads them back: the column named before ` = $` and the
  positional parameter numbered after it, bound to `valores[numero - 1]`.
*/
module Sql {
  import opened Wrappers
  import opened Texto

  /** A bound parameter value: a text column or a boolean column. */
  datatype Valor = ValorTexto(texto: string) | ValorBool(b: bool)

  /** `${coluna} = $${numero}`. */
  function Fragmento(coluna: string, numero: nat): string {
    coluna + " = $" + NatParaTexto(numero)
  }

  /** A text is a prefix of itself followed by anything. */
  lemma PrefixoDaConcatenacao(p: string, t: string)
    ensures p <= p + t
  {
    assert (p + t)[..|p|] == p;
  }

  /** A text that differs from `p` at a position inside both does not start with `p`. */
  lemma NaoPrefixo(p: string, s: string, i: nat)
    requires i < |p| && i < |s| && p[i] != s[i]
    ensures !(p <= s)
  {
  }

  /** The longest run of decimal digits at the end of `s`. */
  function DigitosFinais(s: string): (d: string)
    ensures SoDigitos(d) && |d| <= |s| && d == s[|s| - |d|..]
    ensures |d| < |s| ==> !EhDigito(s[|s| - |d| - 1])
  {
    if s != [] && EhDigito(s[|s| - 1]) then DigitosFinais(s[..|s| - 1]) + [s[|s| - 1]] else []
  }

  /** The parameter number a fragment ends with (`... $12` gives 12), if it ends with one. */
  function Marcador(s: string): Option<nat> {
    var d := DigitosFinais(s);
    if d != [] && |s| > |d| && s[|s| - |d| - 1] == '$' then Some(ValorDigitos(d)) else None
  }

  lemma {:induction false} DigitosFinaisDeDigitos(p: string, t: string)
    requires SoDigitos(t)
    requires p == [] || !EhDigito(p[|p| - 1])
    ensures DigitosFinais(p + t) == t
    decreases |t|
  {
    var s := p + t;
    if t == [] {
      assert s == p;
    } else {
      var t' := t[..|t| - 1];
      var x := t[|t| - 1];
      assert s[..|s| - 1] == p + t';
      assert s[|s| - 1] == x && EhDigito(x);
      DigitosFinaisDeDigitos(p, t');
      assert DigitosFinais(s) == DigitosFinais(p + t') + [x];
      assert t == t' + [x];
    }
  }

  /** The parameter number written into a fragment reads back from its text. */
  lemma MarcadorDeFragmento(coluna: string, numero: nat)
    ensures Marcador(Fragmento(coluna, numero)) == Some(numero)
  {
    var p := coluna + " = $";
    DigitosFinaisDeDigitos(p, NatParaTexto(numero));
    assert Fragmento(coluna, numero) == p + NatParaTexto(numero);
  }

  /** JavaScript truthiness of an optional text, the builders' test: present and not empty. */
  predicate Verdadeiro(t: Option<string>) {
    t.Some? && t.value != ""
  }

  /** An assignment the builder decided on: the column's name and the value bound to it. */
  type Par = (string, Valor)

  /** The `SET` list, the parameter values and the number of the `WHERE` parameter. */
  datatype Clausula = Clausula(campos: seq<string>, valores: seq<Valor>, contador: nat)

  /** The fragments for the assignments `f`, parameters numbered from 1. */
  function FragmentosDe(f: seq<Par>): (s: seq<string>)
    ensures |s| == |f|
    decreases |f|
  {
    if f == [] then [] else FragmentosDe(f[..|f| - 1]) + [Fragmento(f[|f| - 1].0, |f|)]
  }

  /** The values of the assignments `f`, in order. */
  function ValoresDe(f: seq<Par>): (v: seq<Valor>)
    ensures |v| == |f|
    decreases |f|
  {
    if f == [] then [] else ValoresDe(f[..|f| - 1]) + [f[|f| - 1].1]
  }

  /** The `k`-th fragment names the `k`-th column with parameter `k + 1`, bound to the `k`-th value. */
  lemma {:induction false} FragmentosDeEm(f: seq<Par>, k: nat)
    requires k < |f|
    ensures FragmentosDe(f)[k] == Fragmento(f[k].0, k + 1)
    ensures ValoresDe(f)[k] == f[k].1
    decreases |f|
  {
    if k < |f| - 1 {
      FragmentosDeEm(f[..|f| - 1], k);
    }
  }

  /** The parameters of the generated fragments are numbered 1, 2, ... without a gap. */
  lemma MarcadoresConsecutivos(f: seq<Par>)
    ensures forall k :: 0 <= k < |f| ==> Marcador(FragmentosDe(f)[k]) == Some(k + 1)
  {
    forall k | 0 <= k < |f| ensures Marcador(FragmentosDe(f)[k]) == Some(k + 1) {
      FragmentosDeEm(f, k);
      MarcadorDeFragmento(f[k].0, k + 1);
    }
  }

  lemma FragmentosMaisUm(f: seq<Par>, c: string, v: Valor)
    ensures FragmentosDe(f + [(c, v)]) == FragmentosDe(f) + [Fragmento(c, |f| + 1)]
    ensures ValoresDe(f + [(c, v)]) == ValoresDe(f) + [v]
  {
    assert (f + [(c, v)])[..|f|] == f;
  }

  /** The builder's lists are the fragments and values of the assignments `f`, the counter one past them. */
  predicate Coerente(f: seq<Par>, campos: seq<string>, valores: seq<Valor>, contador: nat) {
    campos == FragmentosDe(f) && valores == ValoresDe(f) && contador == |f| + 1
  }

  /** Pushing one assignment's fragment and value and advancing the counter keeps the lists coherent. */
  lemma CoerenteMaisUm(f: seq<Par>, c: string, v: Valor, campos: seq<string>, valores: seq<Valor>, contador: nat)
    requires Coerente(f, campos, valores, contador)
    ensures Coerente(f + [(c, v)], campos + [Fragmento(c, contador)], valores + [v], contador + 1)
  {
    FragmentosMaisUm(f, c, v);
  }
}
