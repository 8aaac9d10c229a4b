/** Strings as the core cleans and prints them: whitespace, decimal numbers. */
module Texto {
  import opened Base

  /** `char::is_whitespace` (the Unicode White_Space property). */
  predicate EsEspacio(c: char) {
    || '\U{0009}' <= c <= '\U{000D}'
    || c == ' ' || c == '\U{0085}' || c == '\U{00A0}' || c == '\U{1680}'
    || '\U{2000}' <= c <= '\U{200A}'
    || c == '\U{2028}' || c == '\U{2029}' || c == '\U{202F}' || c == '\U{205F}' || c == '\U{3000}'
  }

  predicate EsDigito(c: char) {
    '0' <= c <= '9'
  }

  predicate SoloDigitos(s: string) {
    forall k :: 0 <= k < |s| ==> EsDigito(s[k])
  }

  /** `s.split_whitespace().collect::<Vec<_>>().join(" ")`, one character at a time:
      a run of spaces becomes one space, and only between words. */
  function Juntar(s: string): string {
    Juntado(s, "", false)
  }

  /** `hecho` is the text so far, `hueco` says that a space run is pending after it. */
  function Juntado(s: string, hecho: string, hueco: bool): string
    decreases |s|
  {
    if |s| == 0 then hecho
    else if EsEspacio(s[0]) then Juntado(s[1..], hecho, true)
    else Juntado(s[1..], hecho + (if hueco && hecho != "" then " " else "") + [s[0]], false)
  }

  // ----- trimming and splitting

  function SinInicio(s: string): string {
    if |s| > 0 && EsEspacio(s[0]) then SinInicio(s[1..]) else s
  }

  function SinFinal(s: string): string {
    if |s| > 0 && EsEspacio(s[|s| - 1]) then SinFinal(s[..|s| - 1]) else s
  }

  /** `trim`. */
  function Podado(s: string): string {
    SinFinal(SinInicio(s))
  }

  /** Index of the first `c`, or the length. */
  function Primero(s: string, c: char): (k: nat)
    ensures k <= |s| && (k < |s| ==> s[k] == c) && forall j :: 0 <= j < k ==> s[j] != c
  {
    if |s| == 0 || s[0] == c then 0 else 1 + Primero(s[1..], c)
  }

  predicate SinBordes(s: string) {
    |s| > 0 && !EsEspacio(s[0]) && !EsEspacio(s[|s| - 1])
  }

  lemma PodadoIgual(s: string)
    requires SinBordes(s)
    ensures Podado(s) == s
  {
  }

  // ----- notes and details

  const MAX_NOTA := 50
  const MAX_DETALLE := 200

  function LimpiaNota(s: string): Result<string, Error> {
    var t := Juntar(s);
    if |t| > MAX_NOTA then Err(Nota) else Ok(t)
  }

  function LimpiaDetalle(s: string): string {
    var t := Juntar(s);
    if |t| > MAX_DETALLE then t[..MAX_DETALLE] else t
  }

  // ----- cleaning a text that was cleaned before

  /** Words with single spaces between them. */
  predicate Limpio(t: string) {
    && (forall k :: 0 <= k < |t| ==> EsEspacio(t[k]) ==> t[k] == ' ')
    && (|t| > 0 ==> t[0] != ' ' && t[|t| - 1] != ' ')
    && (forall k :: 0 < k < |t| ==> t[k - 1] == ' ' ==> t[k] != ' ')
  }

  lemma {:induction false} JuntadoLimpio(s: string, hecho: string, hueco: bool)
    requires Limpio(hecho)
    ensures Limpio(Juntado(s, hecho, hueco))
    decreases |s|
  {
    if |s| == 0 {
    } else {
      if EsEspacio(s[0]) {
        JuntadoLimpio(s[1..], hecho, true);
      } else {
        UnaLetraMas(hecho, hueco && hecho != "", s[0]);
        JuntadoLimpio(s[1..], hecho + (if hueco && hecho != "" then " " else "") + [s[0]], false);
      }
    }
  }

  lemma UnaLetraMas(hecho: string, hueco: bool, c: char)
    requires Limpio(hecho) && !EsEspacio(c) && (hueco ==> hecho != "")
    ensures Limpio(hecho + (if hueco then " " else "") + [c])
  {
    assert c != ' ';
  }

  /** What is kept of the first `n` characters of a clean text: a space at the end goes. */
  function SinUltimo(t: string, n: nat): string
    requires n <= |t|
  {
    if n > 0 && t[n - 1] == ' ' then t[..n - 1] else t[..n]
  }

  /** Cleaning the first `n` characters of a clean text, from the `k`-th on. */
  lemma {:induction false} JuntadoPrefijo(t: string, n: nat, k: nat)
    requires Limpio(t) && k <= n <= |t|
    ensures Juntado(t[k..n], SinUltimo(t, k), k > 0 && t[k - 1] == ' ') == SinUltimo(t, n)
    decreases n - k
  {
    if k == n {
    } else {
      assert t[k..n][1..] == t[k + 1..n] && t[k..n][0] == t[k];
      JuntadoPrefijo(t, n, k + 1);
      if t[k] != ' ' {
        assert !EsEspacio(t[k]);
        assert t[..k + 1] == t[..k] + [t[k]];
        if k > 0 && t[k - 1] == ' ' {
          assert k > 1 && t[..k - 1] != "" && t[..k - 1] + " " == t[..k];
        } else {
          assert t[..k] + "" == t[..k];
        }
      }
    }
  }

  lemma JuntarPrefijo(t: string, n: nat)
    requires Limpio(t) && n <= |t|
    ensures Juntar(t[..n]) == SinUltimo(t, n)
  {
    JuntadoPrefijo(t, n, 0);
    assert t[0..n] == t[..n] && SinUltimo(t, 0) == "";
  }

  /** A stage text cleaned again, as the other device does, stays the same exactly when the
      limit did not cut it after a space. */
  lemma LimpiarDosVecesSi(s: string)
    ensures LimpiaDetalle(LimpiaDetalle(s)) == LimpiaDetalle(s) <==>
      |Juntar(s)| <= MAX_DETALLE || Juntar(s)[MAX_DETALLE - 1] != ' '
  {
    var t := Juntar(s);
    JuntadoLimpio(s, "", false);
    var n := if |t| <= MAX_DETALLE then |t| else MAX_DETALLE;
    assert t[..n] == LimpiaDetalle(s) by { assert |t| <= MAX_DETALLE ==> t[..|t|] == t; }
    JuntarPrefijo(t, n);
  }

  /** A note is accepted again as it is. */
  lemma NotaDosVeces(s: string)
    requires LimpiaNota(s).Ok?
    ensures LimpiaNota(LimpiaNota(s).valor) == LimpiaNota(s)
  {
    var t := Juntar(s);
    JuntadoLimpio(s, "", false);
    JuntarPrefijo(t, |t|);
    assert t[..|t|] == t;
  }

  // ----- decimal numbers

  function Cifra(d: nat): (c: char)
    requires d < 10
  {
    "0123456789"[d]
  }

  function ValorCifra(c: char): (d: nat)
    requires EsDigito(c)
    ensures d < 10
  {
    c as int - '0' as int
  }

  /** `n.to_string()`. */
  function Decimal(n: nat): (s: string)
    ensures |s| >= 1 && SoloDigitos(s)
  {
    if n < 10 then [Cifra(n)] else Decimal(n / 10) + [Cifra(n % 10)]
  }

  /** The number a digit string stands for (`parse` before its range check). */
  function Valor(s: string): nat
    requires SoloDigitos(s)
  {
    if |s| == 0 then 0 else 10 * Valor(s[..|s| - 1]) + ValorCifra(s[|s| - 1])
  }

  function Potencia10(k: nat): nat {
    if k == 0 then 1 else 10 * Potencia10(k - 1)
  }

  lemma CifraVale(d: nat)
    requires d < 10
    ensures EsDigito(Cifra(d)) && ValorCifra(Cifra(d)) == d
  {
  }

  lemma {:induction false} ValorDecimal(n: nat)
    ensures Valor(Decimal(n)) == n
  {
    CifraVale(n % 10);
    if n < 10 {
      UnaCifraMas("", Cifra(n));
    } else {
      ValorDecimal(n / 10);
      UnaCifraMas(Decimal(n / 10), Cifra(n % 10));
    }
  }

  lemma DecimalInyectivo(a: nat, b: nat)
    requires Decimal(a) == Decimal(b)
    ensures a == b
  {
    ValorDecimal(a);
    ValorDecimal(b);
  }

  lemma {:induction false} LargoDecimal(n: nat, k: nat)
    requires k >= 1 && n < Potencia10(k)
    ensures |Decimal(n)| <= k
  {
    if n < 10 {
    } else {
      LargoDecimal(n / 10, k - 1);
    }
  }

  lemma {:induction false} ValorJunto(a: string, b: string)
    requires SoloDigitos(a) && SoloDigitos(b)
    ensures SoloDigitos(a + b)
    ensures Valor(a + b) == Valor(a) * Potencia10(|b|) + Valor(b)
  {
    if |b| == 0 {
      assert a + b == a;
    } else {
      var c, d := b[..|b| - 1], b[|b| - 1];
      ValorJunto(a, c);
      UnaCifraMas(a + c, d);
      UnaCifraMas(c, d);
      assert a + b == a + c + [d] && b == c + [d];
      PorDiez(Valor(a), Potencia10(|c|));
    }
  }

  lemma UnaCifraMas(s: string, d: char)
    requires SoloDigitos(s) && EsDigito(d)
    ensures SoloDigitos(s + [d]) && Valor(s + [d]) == 10 * Valor(s) + ValorCifra(d)
  {
    assert (s + [d])[..|s + [d]| - 1] == s;
  }

  lemma PorDiez(x: nat, q: nat)
    ensures x * (10 * q) == 10 * (x * q)
  {
  }

  /** `k` zeros. */
  function Ceros(k: nat): (s: string)
    ensures |s| == k && SoloDigitos(s)
  {
    seq(k, _ => '0')
  }

  lemma {:induction false} ValorCeros(k: nat)
    ensures Valor(Ceros(k)) == 0
  {
    if k == 0 {
    } else {
      assert Ceros(k)[..k - 1] == Ceros(k - 1);
      ValorCeros(k - 1);
    }
  }

  /** `format!("{n:0k}")`: zeros on the left up to `k` characters. */
  function Relleno(n: nat, k: nat): (s: string)
    ensures SoloDigitos(s)
  {
    var d := Decimal(n);
    if |d| < k then Ceros(k - |d|) + d else d
  }

  lemma ValorRelleno(n: nat, k: nat)
    requires k >= 1 && n < Potencia10(k)
    ensures |Relleno(n, k)| == k && Valor(Relleno(n, k)) == n
  {
    LargoDecimal(n, k);
    ValorDecimal(n);
    if |Decimal(n)| < k {
      CerosDelante(k - |Decimal(n)|, Decimal(n));
    }
  }

  lemma CerosDelante(k: nat, d: string)
    requires SoloDigitos(d)
    ensures SoloDigitos(Ceros(k) + d) && Valor(Ceros(k) + d) == Valor(d)
  {
    ValorJunto(Ceros(k), d);
    ValorCeros(k);
  }
}
