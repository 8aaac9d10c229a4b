/** Installment counting, stage texts and percentages (partida.rs). */
module Cuotas {
  import opened Base
  import opened Texto
  import opened Precio

  /** The quotient is cast `as u32`, so it is taken modulo 2^32. */
  function NPartidas(trabajo: u64, garantia: u64): Result<u32, Error> {
    if trabajo == 0 then Err(Monto)
    else if garantia == 0 then Err(Garantia)
    else if trabajo % garantia != 0 then Err(NoDivide)
    else Ok((trabajo / garantia) % 0x1_0000_0000)
  }

  /** The count is given exactly when the price is some positive number of bonds, and those
      stages cover the price exactly when that number fits 32 bits. */
  lemma NPartidasCubreElTrabajo(trabajo: u64, garantia: u64)
    ensures NPartidas(trabajo, garantia).Ok? <==> trabajo > 0 && exists q: nat :: Veces(q, garantia, trabajo)
    ensures NPartidas(trabajo, garantia).Ok? ==>
      (NPartidas(trabajo, garantia).valor * garantia == trabajo <==> trabajo / garantia <= U32_MAX)
  {
    if exists q: nat :: Veces(q, garantia, trabajo) {
      var q: nat :| Veces(q, garantia, trabajo);
      if garantia > 0 {
        RestoDeVeces(q, garantia, trabajo);
      }
    }
    if NPartidas(trabajo, garantia).Ok? {
      assert Veces(trabajo / garantia, garantia, trabajo);
      CuentaCubre(trabajo, garantia);
    }
  }

  predicate Veces(q: nat, garantia: u64, trabajo: u64) {
    q * garantia == trabajo
  }

  lemma RestoDeVeces(q: nat, garantia: u64, trabajo: u64)
    requires garantia > 0 && Veces(q, garantia, trabajo)
    ensures trabajo % garantia == 0
  {
    assert garantia * q == trabajo;
    DivisionEntera(trabajo, garantia, q);
    assert trabajo == garantia * (trabajo / garantia) + trabajo % garantia;
  }

  lemma CuentaCubre(trabajo: u64, garantia: u64)
    requires NPartidas(trabajo, garantia).Ok?
    ensures NPartidas(trabajo, garantia).valor * garantia == trabajo <==> trabajo / garantia <= U32_MAX
  {
    var q := trabajo / garantia;
    var n := q % 0x1_0000_0000;
    assert q * garantia == trabajo;
    if q > U32_MAX {
      assert n < q;
      assert (q - n) * garantia > 0;
      assert n * garantia == q * garantia - (q - n) * garantia;
    }
  }

  /** One line per installment: extra lines are dropped, missing ones are empty. */
  function AjustaDetalles(n: nat, detalles: seq<string>): (r: seq<string>)
    ensures |r| == n
    ensures forall k :: 0 <= k < n ==> r[k] == if k < |detalles| then LimpiaDetalle(detalles[k]) else ""
  {
    seq(n, k requires 0 <= k => if k < |detalles| then LimpiaDetalle(detalles[k]) else "")
  }

  /** Fitting the lines again, as when a rejected counter offer goes back to its terms, changes
      nothing exactly when no line was cut after a space. */
  lemma AjustarDosVecesSi(n: nat, detalles: seq<string>)
    ensures AjustaDetalles(n, AjustaDetalles(n, detalles)) == AjustaDetalles(n, detalles) <==>
      forall k :: 0 <= k < n && k < |detalles| ==>
        |Juntar(detalles[k])| <= MAX_DETALLE || Juntar(detalles[k])[MAX_DETALLE - 1] != ' '
  {
    var a, b := AjustaDetalles(n, detalles), AjustaDetalles(n, AjustaDetalles(n, detalles));
    assert LimpiaDetalle("") == "";
    forall k | 0 <= k < n && k < |detalles|
      ensures b[k] == a[k] <==> |Juntar(detalles[k])| <= MAX_DETALLE || Juntar(detalles[k])[MAX_DETALLE - 1] != ' '
    {
      LimpiarDosVecesSi(detalles[k]);
    }
    assert (forall k :: 0 <= k < n && k < |detalles| ==> b[k] == a[k]) <==> b == a;
  }

  function TituloPartida(i: nat, detalle: string): string {
    if detalle == "" then "Partida " + Decimal(i + 1) else detalle
  }

  function Porcentaje(n: u32): Result<u32, Error> {
    if 1 <= n <= 100 then Ok(n) else Err(Error.Porcentaje)
  }

  /** `total * pct / 100` in 64 bits: the product wraps. */
  function MontoPct(total: u64, pct: u32): u64 {
    total * pct % (U64_MAX + 1) / 100
  }

  /** Below 2^64 / 100 nothing wraps. */
  lemma MontoPctExacto(total: u64, pct: u32)
    requires total <= U64_MAX / 100 && pct <= 100
    ensures 0 <= total * pct <= 100 * total && MontoPct(total, pct) == total * pct / 100
  {
    MulMonotona(total, 0, pct);
    MulMonotona(total, pct, 100);
  }

  lemma DosPartes(total: int, x: int, y: int)
    requires x >= 0 && y >= 0 && x + y == 100 * total
    ensures total - 1 <= x / 100 + y / 100 <= total && x / 100 <= total
  {
  }

  /** Below 2^64 / 100 a share never exceeds the whole, 100% is the whole, and a share
      and its complement miss the whole by at most one. */
  lemma MontoPctReparte(total: u64, pct: u32)
    requires total <= U64_MAX / 100 && pct <= 100
    ensures MontoPct(total, pct) <= total
    ensures MontoPct(total, 100) == total
    ensures total - 1 <= MontoPct(total, pct) + MontoPct(total, 100 - pct) <= total
  {
    MontoPctExacto(total, pct);
    MontoPctExacto(total, 100 - pct);
    MontoPctExacto(total, 100);
    assert total * (100 - pct) == 100 * total - total * pct;
    DosPartes(total, total * pct, total * (100 - pct));
  }
}
