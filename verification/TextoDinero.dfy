/** Money as text: XMR amounts (`fmt_xmr`, `piconero_de`) and dollars (`fmt_usd`,
    `usd_editable`, `leer_usd`). What is printed reads back as the same amount. */
module TextoDinero {
  import opened Base
  import opened Texto
  import opened Precio

  // ----- splitting

  function Reemplazado(s: string, de: char, a: char): (r: string)
    ensures |r| == |s| && forall k :: 0 <= k < |s| ==> r[k] == if s[k] == de then a else s[k]
  {
    seq(|s|, k requires 0 <= k < |s| => if s[k] == de then a else s[k])
  }

  function Cuantos(s: string, c: char): nat {
    if |s| == 0 then 0 else (if s[0] == c then 1 else 0) + Cuantos(s[1..], c)
  }

  // ----- XMR

  const DECIMALES := 12

  /** Trailing zeros go, but four decimals stay. */
  function Recortada(frac: string): string {
    if |frac| > 4 && frac[|frac| - 1] == '0' then Recortada(frac[..|frac| - 1]) else frac
  }

  method FmtXmr(pico: u64) returns (s: string)
    ensures s == TextoXmr(pico)
  {
    var entero := pico / PICONERO;
    var frac := Relleno(pico % PICONERO, DECIMALES);
    while |frac| > 4 && frac[|frac| - 1] == '0'
      invariant Recortada(frac) == Recortada(Relleno(pico % PICONERO, DECIMALES))
    {
      frac := frac[..|frac| - 1];
    }
    s := Decimal(entero) + "." + frac;
  }

  function TextoXmr(pico: u64): string {
    Decimal(pico / PICONERO) + "." + Recortada(Relleno(pico % PICONERO, DECIMALES))
  }

  datatype Monto = Bien(piconero: u64) | Invalido | MuchosDecimales | MuyGrande | NoEntra

  /** The value of a whole and a decimal part. */
  function LeerPartesXmr(entero: string, frac: string): Monto {
    if |entero| == 0 && |frac| == 0 then Invalido
    else if !SoloDigitos(entero) || !SoloDigitos(frac) then Invalido
    else if |frac| > DECIMALES then MuchosDecimales
    else if |entero| > 7 then MuyGrande
    else
      var v := Valor(entero) * PICONERO + Valor(frac + Ceros(DECIMALES - |frac|));
      if v > U64_MAX then NoEntra else Bien(v)
  }

  /** The checks and the value of an amount already trimmed, with points for commas. */
  function LeerXmr(t: string): Monto {
    if |t| == 0 || t[0] == '+' || t[0] == '-' || Cuantos(t, '.') > 1 then Invalido
    else
      var k := Primero(t, '.');
      LeerPartesXmr(t[..k], if k < |t| then t[k + 1..] else "")
  }

  /** `t` writes the amount `v`: digits, perhaps a point and digits after it, and `v` piconero are
      that many XMR. */
  ghost predicate Escribe(t: string, v: nat) {
    exists e: string, f: string :: EscribeCon(t, v, e, f)
  }

  ghost predicate EscribeCon(t: string, v: nat, e: string, f: string) {
    && SoloDigitos(e) && SoloDigitos(f) && SoloDigitos(e + f) && |e| + |f| > 0 && |e| <= 7 && |f| <= DECIMALES
    && ((t == e && f == "") || t == e + ['.'] + f)
    && v * Potencia10(|f|) == Valor(e + f) * PICONERO
  }

  /** An amount is read exactly when the trimmed text, with points for commas, writes it. */
  method PiconeroDe(texto: string) returns (r: Monto)
    ensures r == LeerXmr(Reemplazado(Podado(texto), ',', '.'))
    ensures r.Bien? ==> Escribe(Reemplazado(Podado(texto), ',', '.'), r.piconero)
    ensures forall v: u64 :: Escribe(Reemplazado(Podado(texto), ',', '.'), v) ==> r == Bien(v)
  {
    var t := Reemplazado(Podado(texto), ',', '.');
    forall v: u64 ensures LeerXmr(t) == Bien(v) <==> Escribe(t, v) {
      LeeElNumero(t, v);
    }
    if |t| == 0 || t[0] == '+' || t[0] == '-' || Cuantos(t, '.') > 1 {
      return Invalido;
    }
    var k := Primero(t, '.');
    r := SumarPartes(t[..k], if k < |t| then t[k + 1..] else "");
  }

  method SumarPartes(entero: string, frac: string) returns (r: Monto)
    ensures r == LeerPartesXmr(entero, frac)
  {
    if |entero| == 0 && |frac| == 0 {
      return Invalido;
    }
    if !SoloDigitos(entero) || !SoloDigitos(frac) {
      return Invalido;
    }
    if |frac| > DECIMALES {
      return MuchosDecimales;
    }
    if |entero| > 7 {
      return MuyGrande;
    }
    var enteros := Valor(entero);
    var fraccion := frac;
    while |fraccion| < DECIMALES
      invariant |frac| <= |fraccion| <= DECIMALES && fraccion == frac + Ceros(|fraccion| - |frac|)
    {
      fraccion := fraccion + ['0'];
    }
    var v := enteros * PICONERO + Valor(fraccion);
    return if v > U64_MAX then NoEntra else Bien(v);
  }

  // ----- what is read is the number written

  lemma {:induction false} Potencias(j: nat, k: nat)
    ensures Potencia10(j) * Potencia10(k) == Potencia10(j + k)
  {
    if j == 0 {
    } else {
      Potencias(j - 1, k);
      assert Potencia10(j) * Potencia10(k) == 10 * (Potencia10(j - 1) * Potencia10(k));
    }
  }

  lemma PotenciaPositiva(k: nat)
    ensures Potencia10(k) > 0
  {
  }

  /** The sum of the parts, scaled. */
  lemma PartesValen(e: string, f: string, w: int)
    requires SoloDigitos(e) && SoloDigitos(f) && |f| <= DECIMALES && SoloDigitos(f + Ceros(DECIMALES - |f|))
    requires w == Valor(e) * PICONERO + Valor(f + Ceros(DECIMALES - |f|))
    ensures SoloDigitos(e + f) && w * Potencia10(|f|) == Valor(e + f) * PICONERO
  {
    var j, p := DECIMALES - |f|, Potencia10(|f|);
    ValorJunto(f, Ceros(j));
    ValorCeros(j);
    ValorJunto(e, f);
    Potencias(j, |f|);
    assert Potencia10(DECIMALES) == PICONERO by { assert Potencia10(12) == 1_000_000_000_000; }
    Escala(Valor(e), Valor(f), p, Potencia10(j), PICONERO);
  }

  lemma Escala(e: nat, f: nat, p: nat, q: nat, total: nat)
    requires q * p == total
    ensures (e * total + f * q) * p == (e * p + f) * total
  {
    assert (e * total + f * q) * p == e * total * p + f * q * p;
    assert f * q * p == f * (q * p);
    assert (e * p + f) * total == e * p * total + f * total;
    assert e * total * p == e * p * total;
  }

  lemma LeeElNumero(t: string, v: u64)
    ensures LeerXmr(t) == Bien(v) <==> Escribe(t, v)
  {
    if LeerXmr(t) == Bien(v) {
      LeidoEsEscrito(t, v);
    }
    if Escribe(t, v) {
      var e: string, f: string :| EscribeCon(t, v, e, f);
      EscritoEsLeido(t, v, e, f);
    }
  }

  lemma LeidoEsEscrito(t: string, v: u64)
    requires LeerXmr(t) == Bien(v)
    ensures Escribe(t, v)
  {
    var k := Primero(t, '.');
    if k < |t| {
      ConPunto(t, k);
      PorPartes(t, v, t[..k], t[k + 1..]);
    } else {
      assert t[..k] == t;
      PorPartes(t, v, t, "");
    }
  }

  lemma ConPunto(t: string, k: nat)
    requires k < |t| && t[k] == '.'
    ensures t == t[..k] + ['.'] + t[k + 1..]
  {
  }

  lemma PorPartes(t: string, v: u64, e: string, f: string)
    requires LeerPartesXmr(e, f) == Bien(v) && ((t == e && f == "") || t == e + ['.'] + f)
    ensures Escribe(t, v)
  {
    PartesLeidas(e, f, v);
    assert EscribeCon(t, v, e, f);
  }

  lemma PartesLeidas(e: string, f: string, v: int)
    requires LeerPartesXmr(e, f).Bien? && LeerPartesXmr(e, f).piconero == v
    ensures SoloDigitos(e) && SoloDigitos(f) && SoloDigitos(e + f) && |e| + |f| > 0 && |e| <= 7 && |f| <= DECIMALES
    ensures v * Potencia10(|f|) == Valor(e + f) * PICONERO
  {
    LeidoEs(e, f, v);
    PartesValen(e, f, v);
  }

  lemma LeidoEs(e: string, f: string, v: int)
    requires LeerPartesXmr(e, f).Bien? && LeerPartesXmr(e, f).piconero == v
    ensures SoloDigitos(e) && SoloDigitos(f) && |e| + |f| > 0 && |e| <= 7 && |f| <= DECIMALES
    ensures SoloDigitos(f + Ceros(DECIMALES - |f|)) && v == Valor(e) * PICONERO + Valor(f + Ceros(DECIMALES - |f|))
  {
  }

  lemma EscritoEsLeido(t: string, v: u64, e: string, f: string)
    requires EscribeCon(t, v, e, f)
    ensures LeerXmr(t) == Bien(v)
  {
    var w := Valor(e) * PICONERO + Valor(f + Ceros(DECIMALES - |f|));
    PartesValen(e, f, w);
    PotenciaPositiva(|f|);
    MismoFactor(v, w, Potencia10(|f|));
    assert LeerPartesXmr(e, f) == Bien(v);
    if t == e + ['.'] + f {
      CuantosEn(e, f, '.');
      assert t[..|e|] == e && t[|e| + 1..] == f;
    } else {
      CuantosNinguno(e, '.');
      assert Primero(t, '.') == |t| && t[..|t|] == e;
    }
  }

  lemma MismoFactor(v: int, w: int, p: int)
    requires p > 0 && v * p == w * p
    ensures v == w
  {
    assert (v - w) * p == 0;
  }

  lemma {:induction false} RecortadaSeRecupera(frac: string)
    requires SoloDigitos(frac)
    ensures var r := Recortada(frac);
      |r| <= |frac| && (|frac| > 0 ==> |r| > 0) && SoloDigitos(r) && r + Ceros(|frac| - |r|) == frac
  {
    if |frac| > 4 && frac[|frac| - 1] == '0' {
      RecortadaSeRecupera(frac[..|frac| - 1]);
      var r := Recortada(frac);
      assert frac == frac[..|frac| - 1] + ['0'];
      assert Ceros(|frac| - 1 - |r|) + ['0'] == Ceros(|frac| - |r|);
      assert r + Ceros(|frac| - |r|) == r + Ceros(|frac| - 1 - |r|) + ['0'];
    } else {
      assert frac + Ceros(0) == frac;
    }
  }

  lemma {:induction false} CuantosEn(a: string, b: string, c: char)
    requires forall k :: 0 <= k < |a| ==> a[k] != c
    requires forall k :: 0 <= k < |b| ==> b[k] != c
    ensures Cuantos(a + [c] + b, c) == 1 && Primero(a + [c] + b, c) == |a|
    decreases |a|
  {
    if |a| == 0 {
      assert a + [c] + b == [c] + b;
      assert ([c] + b)[1..] == b;
      CuantosNinguno(b, c);
    } else {
      assert (a + [c] + b)[1..] == a[1..] + [c] + b;
      CuantosEn(a[1..], b, c);
    }
  }

  lemma {:induction false} CuantosNinguno(b: string, c: char)
    requires forall k :: 0 <= k < |b| ==> b[k] != c
    ensures Cuantos(b, c) == 0
  {
    if |b| == 0 {
    } else {
      CuantosNinguno(b[1..], c);
    }
  }

  /** The eight-digit limit on the whole part is the first amount that is refused. */
  lemma SieteCifras(n: nat)
    ensures |Decimal(n)| <= 7 <==> n < 10_000_000
  {
    assert Potencia10(7) == 10_000_000;
    if n < 10_000_000 {
      LargoDecimal(n, 7);
    } else {
      LargoMinimo(n, 8);
    }
  }

  lemma {:induction false} LargoMinimo(n: nat, k: nat)
    requires k >= 1 && n >= Potencia10(k - 1)
    ensures |Decimal(n)| >= k
  {
    if k < 2 {
    } else {
      LargoMinimo(n / 10, k - 1);
    }
  }

  lemma LeerConPunto(a: string, r: string)
    requires SoloDigitos(a) && SoloDigitos(r) && |a| > 0 && |r| > 0
    ensures LeerXmr(Reemplazado(Podado(a + ['.'] + r), ',', '.')) == LeerPartesXmr(a, r)
  {
    var t := a + ['.'] + r;
    assert t[0] == a[0] && t[|t| - 1] == r[|r| - 1];
    PodadoIgual(t);
    assert Reemplazado(t, ',', '.') == t;
    CuantosEn(a, r, '.');
    assert t[..|a|] == a && t[|a| + 1..] == r;
  }

  lemma ValorDePartes(e: nat, f: nat)
    requires f < PICONERO
    ensures var r := Recortada(Relleno(f, DECIMALES));
      && SoloDigitos(r) && |r| > 0
      && LeerPartesXmr(Decimal(e), r)
         == (if e >= 10_000_000 then MuyGrande
             else if e * PICONERO + f > U64_MAX then NoEntra else Bien(e * PICONERO + f))
  {
    assert Potencia10(12) == PICONERO;
    ValorRelleno(f, DECIMALES);
    RecortadaSeRecupera(Relleno(f, DECIMALES));
    SieteCifras(e);
    ValorDecimal(e);
  }

  /** A printed XMR amount reads back exactly, if and only if it is below ten million XMR;
      so "use the maximum" is recognised as the whole free balance. */
  lemma XmrIdaYVuelta(p: u64)
    ensures LeerXmr(Reemplazado(Podado(TextoXmr(p)), ',', '.')) == Bien(p) <==> p < 10_000_000_000_000_000_000
  {
    var e, f := p / PICONERO, p % PICONERO;
    CortePorEntero(p);
    LeeEntero(Decimal(e), Recortada(Relleno(f, DECIMALES)), e, f);
  }

  lemma CortePorEntero(p: u64)
    ensures p / PICONERO * PICONERO + p % PICONERO == p
    ensures p / PICONERO < 10_000_000 <==> p < 10_000_000_000_000_000_000
  {
  }

  lemma LeeEntero(a: string, r: string, e: nat, f: nat)
    requires f < PICONERO && a == Decimal(e) && r == Recortada(Relleno(f, DECIMALES))
    ensures LeerXmr(Reemplazado(Podado(a + "." + r), ',', '.'))
         == (if e >= 10_000_000 then MuyGrande
             else if e * PICONERO + f > U64_MAX then NoEntra else Bien(e * PICONERO + f))
  {
    ValorDePartes(e, f);
    LeerConPunto(a, r);
    assert a + "." + r == a + ['.'] + r;
  }

  // ----- dollars

  predicate EsSeparador(c: char) {
    c == '.' || c == ','
  }

  function Cifras(s: string): (r: string)
    ensures SoloDigitos(r)
  {
    if |s| == 0 then "" else (if EsDigito(s[0]) then [s[0]] else "") + Cifras(s[1..])
  }

  /** Index of the last separator, or -1. */
  function UltimoSeparador(s: string): (k: int)
    ensures -1 <= k < |s| && (k >= 0 ==> EsSeparador(s[k])) && forall j :: k < j < |s| ==> !EsSeparador(s[j])
  {
    if |s| == 0 then -1 else if EsSeparador(s[|s| - 1]) then |s| - 1 else UltimoSeparador(s[..|s| - 1])
  }

  predicate EsPrefijo(c: char) {
    c == '$' || 'a' <= c <= 'z' || 'A' <= c <= 'Z' || EsEspacio(c)
  }

  function SinPrefijo(s: string): string {
    if |s| > 0 && EsPrefijo(s[0]) then SinPrefijo(s[1..]) else s
  }

  function SinEspacios(s: string): string {
    if |s| == 0 then "" else (if EsEspacio(s[0]) then "" else [s[0]]) + SinEspacios(s[1..])
  }

  /** Whole and decimal parts: the last separator counts only before one or two digits. */
  function Partes(t: string): (string, string) {
    var k := UltimoSeparador(t);
    if k >= 0 && 1 <= |t| - k - 1 <= 2 then (t[..k], t[k + 1..]) else (t, "")
  }

  function Centavos(dec: string): u64
    requires SoloDigitos(dec) && |dec| <= 2
  {
    if |dec| == 0 then 0
    else if |dec| == 1 then ValorCifra(dec[0]) * 10
    else ValorCifra(dec[0]) * 10 + ValorCifra(dec[1])
  }

  function LeerPartesUsd(entero: string, dec: string): Result<u64, Error>
    requires SoloDigitos(dec) && |dec| <= 2
  {
    var cifras := Cifras(entero);
    if cifras == "" && dec == "" then Err(Monto)
    else if Valor(cifras) > U64_MAX then Err(Monto)
    else
      var v := Valor(cifras) * 100 + Centavos(dec);
      if v > U64_MAX then Err(Monto) else Ok(v)
  }

  function LeerUsd(texto: string): Result<u64, Error> {
    var t := SinEspacios(SinPrefijo(Podado(texto)));
    if |t| == 0 || !Legible(t) then Err(Monto)
    else
      DecSonCifras(t);
      LeerPartesUsd(Partes(t).0, Partes(t).1)
  }

  lemma DecSonCifras(t: string)
    requires Legible(t)
    ensures SoloDigitos(Partes(t).1) && |Partes(t).1| <= 2
  {
  }

  predicate Legible(t: string) {
    forall k :: 0 <= k < |t| ==> EsDigito(t[k]) || EsSeparador(t[k])
  }

  /** Digits in threes from the right. */
  function Agrupar(raw: string, mil: char): string {
    if |raw| == 0 then "" else [raw[0]] + (Corte(|raw| - 1, mil) + Agrupar(raw[1..], mil))
  }

  /** What goes between a digit and the `n` digits after it. */
  function Corte(n: nat, mil: char): string {
    if n > 0 && n % 3 == 0 then [mil] else ""
  }

  function Reves(s: string): (r: string)
    ensures |r| == |s|
  {
    if |s| == 0 then "" else Reves(s[1..]) + [s[0]]
  }

  lemma {:induction false} RevesDe(s: string, c: char)
    ensures Reves(s + [c]) == [c] + Reves(s)
  {
    if |s| == 0 {
    } else {
      assert (s + [c])[1..] == s[1..] + [c];
      RevesDe(s[1..], c);
    }
  }

  function TextoUsd(centavos: u64, es: bool): string {
    var (mil, dec) := if es then ('.', ',') else (',', '.');
    "USD " + Agrupar(Decimal(centavos / 100), mil) + Fraccion(centavos % 100, dec)
  }

  /** The cents, if there are any. */
  function Fraccion(cent: nat, dec: char): string {
    if cent == 0 then "" else [dec] + Relleno(cent, 2)
  }

  method FmtUsd(centavos: u64, es: bool) returns (s: string)
    ensures s == TextoUsd(centavos, es)
  {
    var mil, dec := if es then '.' else ',', if es then ',' else '.';
    var cent := centavos % 100;
    var raw := Decimal(centavos / 100);
    var out := "";
    var i := 0;
    while i < |raw|
      invariant 0 <= i <= |raw| && Reves(out) == Agrupar(raw[|raw| - i..], mil)
    {
      var ch := raw[|raw| - 1 - i];
      AgruparUna(raw, i, mil);
      if i > 0 && i % 3 == 0 {
        RevesDe(out, mil);
        out := out + [mil];
      }
      RevesDe(out, ch);
      out := out + [ch];
      i := i + 1;
    }
    assert raw[|raw| - i..] == raw;
    s := "USD " + Reves(out);
    if cent != 0 {
      s := s + ([dec] + Relleno(cent, 2));
    } else {
      assert s + "" == s;
    }
  }

  /** One more digit from the right. */
  lemma AgruparUna(raw: string, i: nat, mil: char)
    requires i < |raw|
    ensures Agrupar(raw[|raw| - (i + 1)..], mil)
         == [raw[|raw| - 1 - i]] + (Corte(i, mil) + Agrupar(raw[|raw| - i..], mil))
  {
    var ch, cola := raw[|raw| - 1 - i], raw[|raw| - i..];
    assert raw[|raw| - (i + 1)..] == [ch] + cola;
    AgruparDelante(ch, cola, i, mil);
  }

  lemma AgruparDelante(ch: char, cola: string, i: nat, mil: char)
    requires |cola| == i
    ensures Agrupar([ch] + cola, mil) == [ch] + (Corte(i, mil) + Agrupar(cola, mil))
  {
    assert ([ch] + cola)[1..] == cola;
  }

  function UsdEditable(centavos: u64): string {
    Decimal(centavos / 100) + Fraccion(centavos % 100, '.')
  }

  // ----- reading back

  /** A digit and perhaps a separator in front of a readable text. */
  lemma DigitoDelante(d: char, corte: string, u: string)
    requires EsDigito(d) && (corte == "" || (|corte| == 1 && EsSeparador(corte[0])))
    ensures Cifras([d] + (corte + u)) == [d] + Cifras(u)
    ensures Legible(u) ==> Legible([d] + (corte + u))
  {
    assert ([d] + (corte + u))[1..] == corte + u;
    if corte == "" {
      assert corte + u == u;
    } else {
      assert (corte + u)[1..] == u;
    }
  }

  lemma {:induction false} AgrupadoLegible(raw: string, mil: char)
    requires SoloDigitos(raw) && EsSeparador(mil)
    ensures Legible(Agrupar(raw, mil)) && Cifras(Agrupar(raw, mil)) == raw
  {
    if |raw| == 0 {
    } else {
      AgrupadoLegible(raw[1..], mil);
      DigitoDelante(raw[0], Corte(|raw| - 1, mil), Agrupar(raw[1..], mil));
      assert raw == [raw[0]] + raw[1..];
    }
  }

  lemma {:induction false} AgrupadoBordes(raw: string, mil: char)
    requires SoloDigitos(raw) && |raw| > 0
    ensures var t := Agrupar(raw, mil); |t| > 0 && EsDigito(t[0]) && EsDigito(t[|t| - 1])
  {
    if |raw| <= 1 {
    } else {
      AgrupadoBordes(raw[1..], mil);
      var u, c := Agrupar(raw[1..], mil), Corte(|raw| - 1, mil);
      assert (c + u)[|c + u| - 1] == u[|u| - 1];
    }
  }

  lemma {:induction false} GrupoCorto(raw: string, mil: char)
    requires |raw| <= 3
    ensures Agrupar(raw, mil) == raw
  {
    if |raw| == 0 {
    } else {
      GrupoCorto(raw[1..], mil);
      assert Corte(|raw| - 1, mil) == "";
      assert "" + raw[1..] == raw[1..];
      assert raw == [raw[0]] + raw[1..];
    }
  }

  lemma {:induction false} GrupoLargo(raw: string, mil: char)
    requires SoloDigitos(raw) && EsSeparador(mil) && |raw| > 3
    ensures var t := Agrupar(raw, mil); |t| >= 4 && UltimoSeparador(t) == |t| - 4
  {
    var d, resto := raw[0], raw[1..];
    assert raw == [d] + resto;
    AgruparDelante(d, resto, |resto|, mil);
    if |resto| > 3 {
      GrupoLargo(resto, mil);
      SeparadorTrasCorte(d, Corte(|resto|, mil), Agrupar(resto, mil));
    } else {
      GrupoCorto(resto, mil);
      SeparadorDeMil(d, mil, resto);
    }
  }

  lemma SeparadorDeMil(d: char, mil: char, resto: string)
    requires EsSeparador(mil) && |resto| == 3 && forall k :: 0 <= k < |resto| ==> !EsSeparador(resto[k])
    ensures var t := [d] + ([mil] + resto); |t| == 5 && UltimoSeparador(t) == 1
  {
    SeparadorEn([d], mil, resto);
    Asociada([d], mil, resto);
  }

  lemma SeparadorTrasCorte(d: char, corte: string, u: string)
    requires |u| >= 4 && UltimoSeparador(u) == |u| - 4
    ensures var t := [d] + (corte + u); |t| >= 4 && UltimoSeparador(t) == |t| - 4
  {
    assert [d] + (corte + u) == [d] + corte + u;
    SeparadorTras([d] + corte, u);
  }

  lemma UltimoEs(s: string, k: int)
    requires -1 <= k < |s| && (k >= 0 ==> EsSeparador(s[k])) && forall j :: k < j < |s| ==> !EsSeparador(s[j])
    ensures UltimoSeparador(s) == k
  {
    var u := UltimoSeparador(s);
    assert u >= 0 ==> EsSeparador(s[u]);
  }

  lemma SeparadorTras(a: string, b: string)
    requires UltimoSeparador(b) >= 0
    ensures UltimoSeparador(a + b) == |a| + UltimoSeparador(b)
  {
    assert forall k :: |a| <= k < |a + b| ==> (a + b)[k] == b[k - |a|];
    UltimoEs(a + b, |a| + UltimoSeparador(b));
  }

  lemma SeparadorPrimero(c: char, b: string)
    requires EsSeparador(c) && forall k :: 0 <= k < |b| ==> !EsSeparador(b[k])
    ensures UltimoSeparador([c] + b) == 0
  {
    UltimoEs([c] + b, 0);
  }

  lemma SeparadorEn(a: string, c: char, b: string)
    requires EsSeparador(c) && forall k :: 0 <= k < |b| ==> !EsSeparador(b[k])
    ensures UltimoSeparador(a + [c] + b) == |a|
  {
    var cola := [c] + b;
    Asociada(a, c, b);
    SeparadorPrimero(c, b);
    SeparadorCola(a, cola);
  }

  lemma Asociada(a: string, c: char, b: string)
    ensures a + [c] + b == a + ([c] + b)
  {
  }

  lemma SeparadorCola(a: string, cola: string)
    requires UltimoSeparador(cola) == 0
    ensures UltimoSeparador(a + cola) == |a|
  {
    SeparadorTras(a, cola);
  }

  lemma {:induction false} SinEspaciosIgual(t: string)
    requires Legible(t)
    ensures SinEspacios(t) == t
  {
    if |t| == 0 {
    } else {
      SinEspaciosIgual(t[1..]);
    }
  }

  lemma LeerDirecto(texto: string, cuerpo: string)
    requires SinBordes(texto) && SinPrefijo(texto) == cuerpo && |cuerpo| > 0 && Legible(cuerpo)
    ensures SoloDigitos(Partes(cuerpo).1) && |Partes(cuerpo).1| <= 2
    ensures LeerUsd(texto) == LeerPartesUsd(Partes(cuerpo).0, Partes(cuerpo).1)
  {
    PodadoIgual(texto);
    SinEspaciosIgual(cuerpo);
    DecSonCifras(cuerpo);
  }

  lemma ConCentavos(entero: string, dec: char, r: string)
    requires EsSeparador(dec) && SoloDigitos(r) && |r| == 2 && Legible(entero)
    ensures Legible(entero + [dec] + r) && Partes(entero + [dec] + r) == (entero, r)
  {
    var t := entero + [dec] + r;
    SeparadorEn(entero, dec, r);
    assert t[..|entero|] == entero && t[|entero| + 1..] == r;
  }

  /** A text whose whole part has the digits of `e` and no cents. */
  lemma LeerSinCentavos(texto: string, entero: string, e: nat, v: nat)
    requires SinBordes(texto) && SinPrefijo(texto) == entero && Legible(entero) && Partes(entero) == (entero, "")
    requires |Cifras(entero)| > 0 && Valor(Cifras(entero)) == e && v == e * 100 <= U64_MAX
    ensures LeerUsd(texto) == Ok(v)
  {
    LeerDirecto(texto, entero);
    PartesSinCentavos(entero, e, v);
  }

  lemma PartesSinCentavos(entero: string, e: nat, v: nat)
    requires |Cifras(entero)| > 0 && Valor(Cifras(entero)) == e && v == e * 100 <= U64_MAX
    ensures LeerPartesUsd(entero, "") == Ok(v)
  {
  }

  /** A text whose whole part has the digits of `e`, then a separator and two digits. */
  lemma LeerConCentavos(texto: string, entero: string, dec: char, r: string, e: nat, v: nat)
    requires SinBordes(texto) && SinPrefijo(texto) == entero + [dec] + r && EsSeparador(dec) && Legible(entero)
    requires SoloDigitos(r) && |r| == 2
    requires Valor(Cifras(entero)) == e && v == e * 100 + Valor(r) <= U64_MAX
    ensures LeerUsd(texto) == Ok(v)
  {
    ConCentavos(entero, dec, r);
    LeerDirecto(texto, entero + [dec] + r);
    PartesConCentavos(entero, r, e, v);
  }

  lemma PartesConCentavos(entero: string, r: string, e: nat, v: nat)
    requires SoloDigitos(r) && |r| == 2
    requires Valor(Cifras(entero)) == e && v == e * 100 + Valor(r) <= U64_MAX
    ensures LeerPartesUsd(entero, r) == Ok(v)
  {
    DosCifras(r);
  }

  lemma DosCifras(r: string)
    requires SoloDigitos(r) && |r| == 2
    ensures Centavos(r) == Valor(r)
  {
    assert r[..1] == [r[0]];
    assert [r[0]][..0] == "";
    assert Valor("") == 0 && Valor([r[0]]) == ValorCifra(r[0]);
  }

  lemma AgrupadoEntero(n: nat, mil: char)
    requires EsSeparador(mil)
    ensures var t := Agrupar(Decimal(n), mil);
      && Legible(t) && |t| > 0 && EsDigito(t[0]) && EsDigito(t[|t| - 1])
      && Cifras(t) == Decimal(n) && Partes(t) == (t, "")
  {
    var raw := Decimal(n);
    AgrupadoLegible(raw, mil);
    AgrupadoBordes(raw, mil);
    if |raw| <= 3 {
      GrupoCorto(raw, mil);
      SinSeparador(raw);
    } else {
      GrupoLargo(raw, mil);
    }
  }

  /** Every 64-bit amount of cents printed for show, in either language, reads back. */
  lemma UsdIdaYVuelta(centavos: u64, es: bool)
    ensures LeerUsd(TextoUsd(centavos, es)) == Ok(centavos)
  {
    var mil, dec := if es then '.' else ',', if es then ',' else '.';
    var entero := Agrupar(Decimal(centavos / 100), mil);
    AgrupadoEntero(centavos / 100, mil);
    ValorDecimal(centavos / 100);
    LeerPrecio("USD ", entero, dec, Fraccion(centavos % 100, dec), centavos / 100, centavos % 100, centavos);
  }

  lemma LeerPrecioEntero(prefijo: string, entero: string, e: nat, v: nat)
    requires prefijo == "USD " || prefijo == ""
    requires Legible(entero) && Partes(entero) == (entero, "")
    requires |entero| > 0 && EsDigito(entero[0]) && EsDigito(entero[|entero| - 1])
    requires |Cifras(entero)| > 0 && Valor(Cifras(entero)) == e && v == e * 100 <= U64_MAX
    ensures LeerUsd(prefijo + entero) == Ok(v)
  {
    SaltaPrefijo(prefijo, entero);
    LeerSinCentavos(prefijo + entero, entero, e, v);
  }

  lemma LeerPrecioConCentavos(prefijo: string, entero: string, dec: char, r: string, f: string, e: nat, v: nat)
    requires prefijo == "USD " || prefijo == ""
    requires EsSeparador(dec) && Legible(entero) && SoloDigitos(r) && |r| == 2 && f == [dec] + r
    requires |entero| > 0 && EsDigito(entero[0])
    requires Valor(Cifras(entero)) == e && v == e * 100 + Valor(r) <= U64_MAX
    ensures LeerUsd(prefijo + entero + f) == Ok(v)
  {
    var cuerpo := entero + [dec] + r;
    assert cuerpo[0] == entero[0] && cuerpo[|cuerpo| - 1] == r[1];
    SaltaPrefijo(prefijo, cuerpo);
    EncadenaFraccion(prefijo, entero, dec, r, f);
    LeerConCentavos(prefijo + cuerpo, entero, dec, r, e, v);
  }

  lemma EncadenaFraccion(prefijo: string, entero: string, dec: char, r: string, f: string)
    requires f == [dec] + r
    ensures prefijo + (entero + [dec] + r) == prefijo + entero + f
  {
  }

  lemma FraccionDe(c: nat, dec: char, s: string)
    requires c < 100
    ensures c == 0 ==> s + Fraccion(c, dec) == s
    ensures c > 0 ==> exists r :: Fraccion(c, dec) == [dec] + r && SoloDigitos(r) && |r| == 2 && Valor(r) == c
  {
    if c > 0 {
      DosDigitos(c);
      assert Fraccion(c, dec) == [dec] + Relleno(c, 2);
    }
  }

  /** Both printers: an optional prefix, a whole part and the cents. */
  lemma LeerPrecio(prefijo: string, entero: string, dec: char, f: string, e: nat, c: nat, v: nat)
    requires prefijo == "USD " || prefijo == ""
    requires EsSeparador(dec) && Legible(entero) && Partes(entero) == (entero, "")
    requires |entero| > 0 && EsDigito(entero[0]) && EsDigito(entero[|entero| - 1])
    requires |Cifras(entero)| > 0 && Valor(Cifras(entero)) == e
    requires c < 100 && v == e * 100 + c <= U64_MAX && f == Fraccion(c, dec)
    ensures LeerUsd(prefijo + entero + f) == Ok(v)
  {
    FraccionDe(c, dec, prefijo + entero);
    if c == 0 {
      LeerPrecioEntero(prefijo, entero, e, v);
    } else {
      var r :| f == [dec] + r && SoloDigitos(r) && |r| == 2 && Valor(r) == c;
      LeerPrecioConCentavos(prefijo, entero, dec, r, f, e, v);
    }
  }

  lemma DosDigitos(n: nat)
    requires n < 100
    ensures |Relleno(n, 2)| == 2 && Valor(Relleno(n, 2)) == n
  {
    assert Potencia10(2) == 100;
    ValorRelleno(n, 2);
  }

  lemma SaltaPrefijo(prefijo: string, cuerpo: string)
    requires prefijo == "USD " || prefijo == ""
    requires |cuerpo| > 0 && EsDigito(cuerpo[0]) && EsDigito(cuerpo[|cuerpo| - 1])
    ensures SinPrefijo(prefijo + cuerpo) == cuerpo && SinBordes(prefijo + cuerpo)
  {
    if prefijo == "" {
      assert prefijo + cuerpo == cuerpo;
    } else {
      SaltaUsd(cuerpo);
    }
  }

  lemma SinSeparador(raw: string)
    requires SoloDigitos(raw)
    ensures UltimoSeparador(raw) == -1 && Partes(raw) == (raw, "")
  {
  }

  lemma SaltaUsd(cuerpo: string)
    requires |cuerpo| > 0 && EsDigito(cuerpo[0])
    ensures SinPrefijo("USD " + cuerpo) == cuerpo
  {
    assert ("USD " + cuerpo)[1..] == "SD " + cuerpo;
    assert ("SD " + cuerpo)[1..] == "D " + cuerpo;
    assert ("D " + cuerpo)[1..] == " " + cuerpo;
    assert (" " + cuerpo)[1..] == cuerpo;
    assert SinPrefijo(cuerpo) == cuerpo;
    assert SinPrefijo(" " + cuerpo) == cuerpo;
    assert SinPrefijo("D " + cuerpo) == cuerpo;
    assert SinPrefijo("SD " + cuerpo) == cuerpo;
  }

  /** The same for the text of an edit field. */
  lemma EditableIdaYVuelta(centavos: u64)
    ensures LeerUsd(UsdEditable(centavos)) == Ok(centavos)
  {
    var raw := Decimal(centavos / 100);
    CifrasDeDigitos(raw);
    SinSeparador(raw);
    ValorDecimal(centavos / 100);
    LeerPrecio("", raw, '.', Fraccion(centavos % 100, '.'), centavos / 100, centavos % 100, centavos);
    assert "" + raw == raw;
  }

  lemma {:induction false} CifrasDeDigitos(raw: string)
    requires SoloDigitos(raw)
    ensures Cifras(raw) == raw
  {
    if |raw| == 0 {
    } else {
      CifrasDeDigitos(raw[1..]);
    }
  }
}
