/**
  The shapes of `SELECT` the directories and the attendance table use:
  `result[0]` of a `WHERE` (the first row a condition accepts, or nothing),
  the whole `WHERE` (the accepted rows, in table order) and
  `ORDER BY <text column> ASC` (a sorted permutation of the rows).
*/
module Consultas {
  import opened Wrappers
  import opened Texto

  /** Every row keeps the rows before it at or below its key. */
  ghost predicate Ordenada<T>(s: seq<T>, chave: T -> string) {
    forall i, j :: 0 <= i < j < |s| ==> MenorIgual(chave(s[i]), chave(s[j]))
  }

  /** `result[0]`: the first row of `s` that `p` accepts, or None when there is none. */
  function PrimeiraQue<T>(s: seq<T>, p: T -> bool): (r: Option<T>)
    ensures r.None? <==> forall i :: 0 <= i < |s| ==> !p(s[i])
    ensures r.Some? ==> exists i :: 0 <= i < |s| && s[i] == r.value && p(s[i])
                                    && forall j :: 0 <= j < i ==> !p(s[j])
  {
    if s == [] then None
    else if p(s[0]) then Some(s[0])
    else
      var r := PrimeiraQue(s[1..], p);
      assert forall j :: 1 <= j < |s| ==> s[j] == s[1..][j - 1];
      r
  }

  /** Rows of `s` accepted by `p`, in their order in `s`. */
  function Filtrar<T(!new)>(s: seq<T>, p: T -> bool): (r: seq<T>)
    ensures forall x :: multiset(r)[x] == if p(x) then multiset(s)[x] else 0
    ensures forall k :: 0 <= k < |r| ==> p(r[k])
    ensures forall x :: x in r <==> x in s && p(x)
  {
    if s == [] then []
    else
      var resto := Filtrar(s[1..], p);
      assert s == [s[0]] + s[1..];
      if p(s[0]) then [s[0]] + resto else resto
  }

  /** Filtering keeps the relative order of rows, so a relation between every earlier and later row survives. */
  lemma {:induction false} FiltrarPreservaPares<T(!new)>(s: seq<T>, p: T -> bool, rel: (T, T) -> bool)
    requires forall i, j :: 0 <= i < j < |s| ==> rel(s[i], s[j])
    ensures forall i, j :: 0 <= i < j < |Filtrar(s, p)| ==> rel(Filtrar(s, p)[i], Filtrar(s, p)[j])
  {
    if s != [] {
      var resto := Filtrar(s[1..], p);
      FiltrarPreservaPares(s[1..], p, rel);
      if p(s[0]) {
        forall j | 0 <= j < |resto| ensures rel(s[0], resto[j]) {
          assert resto[j] in s[1..];
          var m :| 0 <= m < |s[1..]| && s[1..][m] == resto[j];
          assert s[m + 1] == resto[j];
        }
        ParesComCabeca(s[0], resto, rel);
        assert Filtrar(s, p) == [s[0]] + resto;
      } else {
        assert Filtrar(s, p) == resto;
      }
    }
  }

  /** A head related to every later row, before rows already pairwise related, keeps every pair related. */
  lemma ParesComCabeca<T>(x: T, t: seq<T>, rel: (T, T) -> bool)
    requires forall i, j :: 0 <= i < j < |t| ==> rel(t[i], t[j])
    requires forall j :: 0 <= j < |t| ==> rel(x, t[j])
    ensures forall i, j :: 0 <= i < j < |[x] + t| ==> rel(([x] + t)[i], ([x] + t)[j])
  {
    var r := [x] + t;
    forall i, j | 0 <= i < j < |r| ensures rel(r[i], r[j]) {
      if i == 0 {
        assert r[j] == t[j - 1];
      } else {
        assert r[i] == t[i - 1] && r[j] == t[j - 1];
      }
    }
  }

  /** A filter that accepts every row keeps them all. */
  lemma {:induction false} FiltrarTodos<T(!new)>(s: seq<T>, p: T -> bool)
    requires forall i :: 0 <= i < |s| ==> p(s[i])
    ensures Filtrar(s, p) == s
  {
    if s != [] {
      FiltrarTodos(s[1..], p);
      assert s == [s[0]] + s[1..];
    }
  }

  /** Removing position `k > 0` of `s` is keeping its head and removing position `k - 1` of its tail. */
  lemma SemPosicao<T>(s: seq<T>, k: nat)
    requires 0 < k < |s|
    ensures s[..k] + s[k + 1..] == [s[0]] + (s[1..][..k - 1] + s[1..][k..])
  {
    assert s[1..][..k - 1] == s[1..k];
    assert s[1..][k..] == s[k + 1..];
    assert [s[0]] + s[1..k] == s[..k];
  }

  /** A filter that refuses exactly the row at `k` removes that row and nothing else. */
  lemma {:induction false} FiltrarUnico<T(!new)>(s: seq<T>, p: T -> bool, k: nat)
    requires k < |s| && !p(s[k])
    requires forall i :: 0 <= i < |s| && i != k ==> p(s[i])
    ensures Filtrar(s, p) == s[..k] + s[k + 1..]
  {
    var resto := s[1..];
    if k == 0 {
      FiltrarSemCabeca(s, p);
    } else {
      forall i | 0 <= i < |resto| && i != k - 1 ensures p(resto[i]) {
        assert resto[i] == s[i + 1];
      }
      assert resto[k - 1] == s[k];
      FiltrarUnico(resto, p, k - 1);
      assert Filtrar(s, p) == [s[0]] + Filtrar(resto, p);
      SemPosicao(s, k);
    }
  }

  /** A filter that refuses only the head removes the head. */
  lemma FiltrarSemCabeca<T(!new)>(s: seq<T>, p: T -> bool)
    requires 0 < |s| && !p(s[0])
    requires forall i :: 0 < i < |s| ==> p(s[i])
    ensures Filtrar(s, p) == s[..0] + s[1..]
  {
    var resto := s[1..];
    forall i | 0 <= i < |resto| ensures p(resto[i]) {
      assert resto[i] == s[i + 1];
    }
    FiltrarTodos(resto, p);
    assert s[..0] + s[1..] == resto;
  }

  /** Removing one row keeps a relation between every earlier and later row. */
  lemma RemoverPreservaPares<T>(s: seq<T>, k: nat, rel: (T, T) -> bool)
    requires k < |s|
    requires forall i, j :: 0 <= i < j < |s| ==> rel(s[i], s[j])
    ensures var r := s[..k] + s[k + 1..]; forall i, j :: 0 <= i < j < |r| ==> rel(r[i], r[j])
  {
    var r := s[..k] + s[k + 1..];
    forall i, j | 0 <= i < j < |r| ensures rel(r[i], r[j]) {
      var i', j' := if i < k then i else i + 1, if j < k then j else j + 1;
      assert r[i] == s[i'] && r[j] == s[j'];
    }
  }

  function Inserir<T>(x: T, s: seq<T>, chave: T -> string): (r: seq<T>)
    requires Ordenada(s, chave)
    ensures multiset(r) == multiset(s) + multiset{x}
    ensures Ordenada(r, chave)
  {
    if s == [] then [x]
    else if MenorIgual(chave(x), chave(s[0])) then
      forall j | 0 <= j < |s| ensures MenorIgual(chave(x), chave(s[j])) {
        if j > 0 { MenorIgualTransitiva(chave(x), chave(s[0]), chave(s[j])); }
      }
      OrdenadaComCabeca(x, s, chave);
      [x] + s
    else
      var resto := Inserir(x, s[1..], chave);
      assert s == [s[0]] + s[1..];
      MenorIgualTotal(chave(x), chave(s[0]));
      forall j | 0 <= j < |s[1..]| ensures MenorIgual(chave(s[0]), chave(s[1..][j])) {
        assert s[1..][j] == s[j + 1];
      }
      CotaDaInsercao(s[0], x, s[1..], resto, chave);
      OrdenadaComCabeca(s[0], resto, chave);
      [s[0]] + resto
  }

  /** A row at or below every row of a sorted sequence, put in front, keeps it sorted. */
  lemma OrdenadaComCabeca<T>(y: T, t: seq<T>, chave: T -> string)
    requires Ordenada(t, chave)
    requires forall k :: 0 <= k < |t| ==> MenorIgual(chave(y), chave(t[k]))
    ensures Ordenada([y] + t, chave)
  {
    var r := [y] + t;
    forall i, j | 0 <= i < j < |r| ensures MenorIgual(chave(r[i]), chave(r[j])) {
      if i == 0 {
        assert r[j] == t[j - 1];
      } else {
        assert r[i] == t[i - 1] && r[j] == t[j - 1];
      }
    }
  }

  /** A key at or below `x` and every row of `s` is at or below every row of a permutation of `s` plus `x`. */
  lemma CotaDaInsercao<T>(y: T, x: T, s: seq<T>, r: seq<T>, chave: T -> string)
    requires multiset(r) == multiset(s) + multiset{x}
    requires MenorIgual(chave(y), chave(x))
    requires forall j :: 0 <= j < |s| ==> MenorIgual(chave(y), chave(s[j]))
    ensures forall k :: 0 <= k < |r| ==> MenorIgual(chave(y), chave(r[k]))
  {
    forall k | 0 <= k < |r| ensures MenorIgual(chave(y), chave(r[k])) {
      assert r[k] in multiset(r);
      if r[k] != x {
        assert r[k] in multiset(s);
        var j :| 0 <= j < |s| && s[j] == r[k];
      }
    }
  }

  /** `ORDER BY chave ASC`: the same rows, sorted by the key. */
  function OrdenarPor<T>(s: seq<T>, chave: T -> string): (r: seq<T>)
    ensures multiset(r) == multiset(s)
    ensures Ordenada(r, chave)
  {
    if s == [] then []
    else
      assert s == [s[0]] + s[1..];
      Inserir(s[0], OrdenarPor(s[1..], chave), chave)
  }

  /** With no two keys equal, a sorted listing is strictly increasing: no row's key is at or below an earlier one's. */
  lemma OrdenadaEstrita<T>(s: seq<T>, chave: T -> string)
    requires Ordenada(s, chave)
    requires forall i, j :: 0 <= i < j < |s| ==> chave(s[i]) != chave(s[j])
    ensures forall i, j :: 0 <= i < j < |s| ==> !MenorIgual(chave(s[j]), chave(s[i]))
  {
    forall i, j | 0 <= i < j < |s| ensures !MenorIgual(chave(s[j]), chave(s[i])) {
      if MenorIgual(chave(s[j]), chave(s[i])) {
        MenorIgualAntissimetrica(chave(s[i]), chave(s[j]));
      }
    }
  }
}
