/** Dollars to piconero, and the price a stage is fixed at when its lock is proposed
    (precio.rs). */
module Precio {
  import opened Base

  const PICONERO := 1_000_000_000_000
  const PICONERO_POR_UNIDAD := 20_000_000

  datatype Moneda = Unidades | Usd

  datatype PrecioFijado = PrecioFijado(
    usdCentavos: u64, centavosPorXmr: u64, piconero: u64, fuente: string, cuando: int)
  {
    predicate Coherente() {
      UsdAPiconero(usdCentavos, centavosPorXmr) == Some(piconero)
    }
  }

  const U128_MAX: int := 0xFFFF_FFFF_FFFF_FFFF_FFFF_FFFF_FFFF_FFFF

  function UsdAPiconero(usdCentavos: u64, centavosPorXmr: u64): Option<u64> {
    if centavosPorXmr == 0 || usdCentavos == 0 then None
    else
      var num := usdCentavos * PICONERO;
      var q := (num + centavosPorXmr / 2) / centavosPorXmr;
      if 0 < q <= U64_MAX then Some(q) else None
  }

  /** `q` piconero is the half-up nearest integer to `usd * PICONERO / precio`:
      the distance is at most one half, and a tie goes up. */
  predicate MasCercano(q: int, usd: u64, precio: u64) {
    2 * (precio * q) - precio <= 2 * (usd * PICONERO) < 2 * (precio * q) + precio
  }

  lemma DivisionEntera(a: int, d: int, q: int)
    requires d > 0
    ensures a / d == q <==> d * q <= a < d * q + d
  {
    CocienteUnico(a, d, a / d, a % d, q);
  }

  lemma CocienteUnico(a: int, d: int, r: int, m: int, q: int)
    requires d > 0 && a == d * r + m && 0 <= m < d
    ensures r == q <==> d * q <= a < d * q + d
  {
    if d * q <= a < d * q + d {
      assert d * (r + 1) == d * r + d && d * (q + 1) == d * q + d;
      Cancela(d, q, r + 1);
      Cancela(d, r, q + 1);
    }
  }

  lemma Cancela(d: int, a: int, b: int)
    requires d >= 0 && d * a < d * b
    ensures a < b
  {
    assert a >= b ==> d * (a - b) >= 0;
  }

  lemma MulMonotona(d: int, a: int, b: int)
    requires d >= 0 && a <= b
    ensures d * a <= d * b
  {
    assert d * (b - a) >= 0;
  }

  lemma Redondeo(num: int, d: int, z: int)
    requires d > 0
    ensures z <= num + d / 2 < z + d <==> 2 * z - d <= 2 * num < 2 * z + d
  {
  }

  lemma CocienteMasCercano(usd: u64, precio: u64, q: int)
    requires precio > 0
    ensures (usd * PICONERO + precio / 2) / precio == q <==> MasCercano(q, usd, precio)
  {
    DivisionEntera(usd * PICONERO + precio / 2, precio, q);
    Redondeo(usd * PICONERO, precio, precio * q);
  }

  /** The conversion succeeds with exactly the half-up nearest integer, fails exactly when
      that integer is zero or wider than 64 bits (or an argument is zero), and its
      128-bit intermediates never wrap. */
  lemma UsdAPiconeroEsElMasCercano(usd: u64, precio: u64, q: int)
    ensures usd * PICONERO + precio / 2 <= U128_MAX
    ensures UsdAPiconero(usd, precio) == Some(q) <==>
              usd > 0 && precio > 0 && 0 < q <= U64_MAX && MasCercano(q, usd, precio)
    ensures usd > 0 && precio > 0 && MasCercano(q, usd, precio) && UsdAPiconero(usd, precio).None? ==>
              q == 0 || q > U64_MAX
  {
    SinDesborde(usd, precio);
    UsdAPiconeroEs(usd, precio);
    if precio > 0 {
      CocienteMasCercano(usd, precio, q);
    }
  }

  lemma SinDesborde(usd: u64, precio: u64)
    ensures usd * PICONERO + precio / 2 <= U128_MAX
  {
  }

  lemma UsdAPiconeroEs(usd: u64, precio: u64)
    ensures usd == 0 || precio == 0 ==> UsdAPiconero(usd, precio) == None
    ensures usd > 0 && precio > 0 ==>
      var c := (usd * PICONERO + precio / 2) / precio;
      UsdAPiconero(usd, precio) == if 0 < c <= U64_MAX then Some(c) else None
  {
  }

  /** A dearer coin never buys more piconero, and more dollars never buy fewer. */
  lemma UsdAPiconeroMonotono(usd: u64, masUsd: u64, precio: u64, menosPrecio: u64)
    requires usd <= masUsd && 0 < menosPrecio <= precio
    requires UsdAPiconero(usd, precio).Some? && UsdAPiconero(masUsd, menosPrecio).Some?
    ensures UsdAPiconero(usd, precio).value <= UsdAPiconero(masUsd, menosPrecio).value
  {
    var q: int, r: int := UsdAPiconero(usd, precio).value, UsdAPiconero(masUsd, menosPrecio).value;
    UsdAPiconeroEsElMasCercano(usd, precio, q);
    UsdAPiconeroEsElMasCercano(masUsd, menosPrecio, r);
    var a, b := 2 * q - 1, 2 * r + 1;
    assert 2 * (precio * q) - precio == precio * a;
    assert 2 * (menosPrecio * r) + menosPrecio == menosPrecio * b;
    MulMonotona(b, menosPrecio, precio);
    assert precio * a < precio * b;
    Cancela(precio, a, b);
  }

  function Fijar(usdCentavos: u64, centavosPorXmr: u64, fuente: string, cuando: int): Result<PrecioFijado, Error> {
    match UsdAPiconero(usdCentavos, centavosPorXmr)
    case Some(p) => Ok(PrecioFijado(usdCentavos, centavosPorXmr, p, fuente, cuando))
    case None => Err(Error.Precio)
  }

  function UnidadesAPiconero(unidades: u64): Option<u64> {
    if unidades * PICONERO_POR_UNIDAD <= U64_MAX then Some(unidades * PICONERO_POR_UNIDAD) else None
  }
}
