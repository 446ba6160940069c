/**
  Text helpers the source gets from JavaScript's runtime: rendering a number
  in decimal (`String(n)`, template literals), reading a run of decimal digits
  back (`Number(s)`), `padStart(2, "0")`, and the ascending text order used by
  `ORDER BY ... ASC`.
*/
module Texto {

  predicate EhDigito(c: char) {
    '0' <= c <= '9'
  }

  predicate SoDigitos(s: string) {
    forall i :: 0 <= i < |s| ==> EhDigito(s[i])
  }

  function Digito(n: nat): (c: char)
    requires n < 10
    ensures EhDigito(c)
  {
    (('0' as int) + n) as char
  }

  /** Ten to the power `n`. */
  function Potencia10(n: nat): (p: nat)
    ensures p >= 1
  {
    if n == 0 then 1 else 10 * Potencia10(n - 1)
  }

  /** Value of a run of decimal digits, as `Number("0042") == 42`; `n` digits stay below ten to the `n`. */
  function ValorDigitos(s: string): (v: nat)
    requires SoDigitos(s)
    ensures v < Potencia10(|s|)
  {
    if s == [] then 0
    else ValorDigitos(s[..|s| - 1]) * 10 + ((s[|s| - 1] as int) - ('0' as int))
  }

  /** Decimal rendering of a natural number, without leading zeros (`String(n)`). */
  function NatParaTexto(n: nat): (s: string)
    ensures |s| >= 1 && SoDigitos(s)
    ensures ValorDigitos(s) == n
    ensures n < 10 <==> |s| == 1
    ensures s[0] != '0' || n == 0
    decreases n
  {
    var pre := if n < 10 then [] else NatParaTexto(n / 10);
    var s := pre + [Digito(n % 10)];
    assert s[..|s| - 1] == pre;
    s
  }

  /** Rendering of an integer, `String(i)`: a minus sign before the digits when negative. */
  function IntParaTexto(i: int): (s: string)
    ensures |s| >= 1
    ensures i >= 0 ==> s == NatParaTexto(i)
    ensures i < 0 <==> s[0] == '-'
  {
    if i < 0 then "-" + NatParaTexto(-i) else NatParaTexto(i)
  }

  /** `s.padStart(2, "0")`: zeros on the left up to length two; longer text is unchanged. */
  function PreencherDois(s: string): (r: string)
    ensures |s| >= 2 ==> r == s
    ensures |s| < 2 ==> |r| == 2 && r[2 - |s|..] == s && forall i :: 0 <= i < 2 - |s| ==> r[i] == '0'
  {
    if |s| >= 2 then s else seq(2 - |s|, _ => '0') + s
  }

  /** Number of decimal digits `NatParaTexto` writes, up to four. */
  lemma {:induction false} ComprimentoDecimal(n: nat)
    ensures 10 <= n < 100 ==> |NatParaTexto(n)| == 2
    ensures 100 <= n < 1000 ==> |NatParaTexto(n)| == 3
    ensures 1000 <= n < 10000 ==> |NatParaTexto(n)| == 4
    decreases n
  {
    if n >= 10 {
      ComprimentoDecimal(n / 10);
    }
  }

  /** A number below 100, rendered and padded to two digits, reads back as itself. */
  lemma DoisDigitosIdaEVolta(n: nat)
    requires n < 100
    ensures var s := PreencherDois(NatParaTexto(n));
            |s| == 2 && SoDigitos(s) && ValorDigitos(s) == n
  {
    ComprimentoDecimal(n);
    var t := NatParaTexto(n);
    var s := PreencherDois(t);
    if n < 10 {
      assert s == ['0'] + t;
      assert s[..1] == ['0'];
      assert ValorDigitos(['0']) == 0 by {
        assert ['0'][..0] == [];
      }
    }
  }

  /** Lexicographic order by character code: `a` sorts before or equal to `b`. */
  predicate MenorIgual(a: string, b: string)
    decreases |a|
  {
    if a == [] then true
    else if b == [] then false
    else if a[0] != b[0] then a[0] < b[0]
    else MenorIgual(a[1..], b[1..])
  }

  lemma {:induction false} MenorIgualTotal(a: string, b: string)
    ensures MenorIgual(a, b) || MenorIgual(b, a)
    decreases |a|
  {
    if a != [] && b != [] && a[0] == b[0] {
      MenorIgualTotal(a[1..], b[1..]);
    }
  }

  lemma {:induction false} MenorIgualTransitiva(a: string, b: string, c: string)
    requires MenorIgual(a, b) && MenorIgual(b, c)
    ensures MenorIgual(a, c)
    decreases |a|
  {
    if a != [] && b != [] && c != [] && a[0] == b[0] && b[0] == c[0] {
      MenorIgualTransitiva(a[1..], b[1..], c[1..]);
    }
  }

  lemma {:induction false} MenorIgualAntissimetrica(a: string, b: string)
    requires MenorIgual(a, b) && MenorIgual(b, a)
    ensures a == b
    decreases |a|
  {
    if a != [] && b != [] {
      MenorIgualAntissimetrica(a[1..], b[1..]);
      assert a == [a[0]] + a[1..] && b == [b[0]] + b[1..];
    }
  }
}
