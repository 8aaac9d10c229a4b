/** Can the box pay this stage, and with which outputs? Two functions answer, one on heights
    alone (`cobertura_caja`) and one on the outputs themselves (`raws_exactos`). */
module Cobertura {
  import opened Base
  import opened Billetera

  // ----- stable sorts

  function InsertarAltura(h: u64, hs: seq<u64>): seq<u64> {
    if |hs| == 0 then [h] else if h <= hs[0] then [h] + hs else [hs[0]] + InsertarAltura(h, hs[1..])
  }

  /** `sort_unstable` on numbers. */
  function OrdenarAlturas(hs: seq<u64>): seq<u64> {
    if |hs| == 0 then [] else InsertarAltura(hs[0], OrdenarAlturas(hs[1..]))
  }

  predicate Antes(a: Entrada, b: Entrada) {
    a.altura < b.altura || (a.altura == b.altura && a.indice <= b.indice)
  }

  function InsertarEntrada(e: Entrada, es: seq<Entrada>): seq<Entrada> {
    if |es| == 0 then [e] else if Antes(e, es[0]) then [e] + es else [es[0]] + InsertarEntrada(e, es[1..])
  }

  /** `sort_by_key` on (height, index): stable. */
  function OrdenarEntradas(es: seq<Entrada>): seq<Entrada> {
    if |es| == 0 then [] else InsertarEntrada(es[0], OrdenarEntradas(es[1..]))
  }

  // ----- the decision and the selection

  datatype Veredicto = Libre | Trabadas | Buscando | SinSaldo

  function Exactas(es: seq<Entrada>, monto: u64): seq<Entrada> {
    if |es| == 0 then []
    else if es[0].monto == monto then [es[0]] + Exactas(es[1..], monto) else Exactas(es[1..], monto)
  }

  function Alturas(es: seq<Entrada>): (hs: seq<u64>)
    ensures |hs| == |es| && forall k :: 0 <= k < |es| ==> hs[k] == es[k].altura
  {
    if |es| == 0 then [] else [es[0].altura] + Alturas(es[1..])
  }

  predicate AlturaSuelta(h: u64, tip: u64) {
    tip >= SumaTope(h, DESBLOQUEO)
  }

  /** The last `n` of a list. */
  function Ultimos<T>(s: seq<T>, n: nat): seq<T> {
    if |s| <= n then s else s[|s| - n..]
  }

  function CoberturaCaja(es: seq<Entrada>, tip: Option<u64>, listo: bool, hasta: u64, retro: u64, monto: u64,
                         cuantos: nat): Veredicto
  {
    if tip.None? then Buscando
    else
      var alturas := OrdenarAlturas(Alturas(Exactas(es, monto)));
      if |alturas| >= cuantos then
        if forall h <- alturas[|alturas| - cuantos..] :: AlturaSuelta(h, tip.value) then Libre else Trabadas
      else if listo && hasta >= tip.value && retro == 0 then SinSaldo
      else Buscando
  }

  /** The two newest outputs of exactly that amount, if both are free. */
  function RawsExactos(es: seq<Entrada>, tip: Option<u64>, monto: u64): seq<Entrada> {
    if tip.None? then []
    else
      var nuevas := Ultimos(OrdenarEntradas(Exactas(es, monto)), 2);
      if |nuevas| != 2 || exists e <- nuevas :: !AlturaSuelta(e.altura, tip.value) then [] else nuevas
  }

  // ----- they agree

  predicate Creciente(hs: seq<u64>) {
    forall i, j :: 0 <= i < j < |hs| ==> hs[i] <= hs[j]
  }

  lemma {:induction false} InsertarAlturaOrdena(h: u64, hs: seq<u64>)
    requires Creciente(hs)
    ensures Creciente(InsertarAltura(h, hs))
  {
    if |hs| > 0 && h > hs[0] {
      InsertarAlturaOrdena(h, hs[1..]);
      var r := InsertarAltura(h, hs[1..]);
      assert r[0] == h || r[0] == hs[1];
    }
  }

  lemma {:induction false} OrdenarAlturasOrdena(hs: seq<u64>)
    ensures Creciente(OrdenarAlturas(hs))
  {
    if |hs| == 0 {
    } else {
      OrdenarAlturasOrdena(hs[1..]);
      InsertarAlturaOrdena(hs[0], OrdenarAlturas(hs[1..]));
    }
  }

  /** Inserting among equal heights, the place differs but the heights do not. */
  lemma {:induction false} InsertarEntradaPorAltura(e: Entrada, es: seq<Entrada>)
    requires Creciente(Alturas(es))
    ensures Alturas(InsertarEntrada(e, es)) == InsertarAltura(e.altura, Alturas(es))
  {
    if |es| == 0 {
    } else {
      var hs, resto := Alturas(es), Alturas(es[1..]);
      assert hs == [es[0].altura] + resto;
      assert hs[1..] == resto;
      if Antes(e, es[0]) {
        AlturasDe(e, es);
      } else {
        InsertarEntradaPorAltura(e, es[1..]);
        AlturasDe(es[0], InsertarEntrada(e, es[1..]));
        if e.altura == es[0].altura {
          assert forall k :: 0 <= k < |resto| ==> resto[k] == hs[k + 1];
          InsertarIgual(e.altura, resto);
        }
      }
    }
  }

  lemma AlturasDe(e: Entrada, es: seq<Entrada>)
    ensures Alturas([e] + es) == [e.altura] + Alturas(es)
  {
    assert ([e] + es)[1..] == es;
  }

  lemma InsertarIgual(h: u64, hs: seq<u64>)
    requires forall k :: 0 <= k < |hs| ==> h <= hs[k]
    ensures InsertarAltura(h, hs) == [h] + hs
  {
  }

  /** Sorting outputs and then reading heights is sorting heights. */
  lemma {:induction false} OrdenarConmuta(es: seq<Entrada>)
    ensures Alturas(OrdenarEntradas(es)) == OrdenarAlturas(Alturas(es))
  {
    if |es| == 0 {
    } else {
      OrdenarConmuta(es[1..]);
      assert Alturas(es)[1..] == Alturas(es[1..]);
      OrdenarAlturasOrdena(Alturas(es[1..]));
      InsertarEntradaPorAltura(es[0], OrdenarEntradas(es[1..]));
    }
  }

  /** For every box ledger and tip: the verdict is Libre exactly when two outputs are
      selected; those have the amount asked for and are free to spend. */
  lemma VeredictoYSeleccionCoinciden(es: seq<Entrada>, tip: Option<u64>, listo: bool, hasta: u64, retro: u64,
                                     monto: u64)
    ensures CoberturaCaja(es, tip, listo, hasta, retro, monto, 2).Libre? <==> |RawsExactos(es, tip, monto)| == 2
    ensures |RawsExactos(es, tip, monto)| == 2 || RawsExactos(es, tip, monto) == []
    ensures forall e <- RawsExactos(es, tip, monto) ::
      e in es && e.monto == monto && tip.Some? && AlturaSuelta(e.altura, tip.value)
  {
    SeleccionSale(es, tip, monto);
    var x := Exactas(es, monto);
    var s := OrdenarEntradas(x);
    OrdenarConmuta(x);
    if tip.Some? && |s| >= 2 {
      UltimosDos(s, OrdenarAlturas(Alturas(x)));
      DosSueltas(s[|s| - 2], s[|s| - 1], tip.value);
    }
  }

  lemma DosSueltas(a: Entrada, b: Entrada, tip: u64)
    ensures (forall h <- [a.altura, b.altura] :: AlturaSuelta(h, tip)) <==>
            AlturaSuelta(a.altura, tip) && AlturaSuelta(b.altura, tip)
    ensures (exists e <- [a, b] :: !AlturaSuelta(e.altura, tip)) <==>
            !AlturaSuelta(a.altura, tip) || !AlturaSuelta(b.altura, tip)
  {
    assert a in [a, b] && b in [a, b] && a.altura in [a.altura, b.altura] && b.altura in [a.altura, b.altura];
  }

  lemma SeleccionSale(es: seq<Entrada>, tip: Option<u64>, monto: u64)
    ensures |RawsExactos(es, tip, monto)| == 2 || RawsExactos(es, tip, monto) == []
    ensures forall e <- RawsExactos(es, tip, monto) ::
      e in es && e.monto == monto && tip.Some? && AlturaSuelta(e.altura, tip.value)
  {
    OrdenarGuarda(Exactas(es, monto));
    ExactasSon(es, monto);
  }

  lemma UltimosDos(s: seq<Entrada>, hs: seq<u64>)
    requires |s| == |hs| >= 2 && forall k :: 0 <= k < |s| ==> hs[k] == s[k].altura
    ensures var n := |s| - 2;
      hs[n..] == [s[n].altura, s[n + 1].altura] && Ultimos(s, 2) == [s[n], s[n + 1]]
  {
  }

  lemma {:induction false} InsertarGuarda(e: Entrada, es: seq<Entrada>)
    ensures forall x :: x in InsertarEntrada(e, es) <==> x == e || x in es
  {
    if |es| == 0 {
    } else {
      assert es == [es[0]] + es[1..];
      if !Antes(e, es[0]) {
        InsertarGuarda(e, es[1..]);
      }
    }
  }

  lemma {:induction false} OrdenarGuarda(es: seq<Entrada>)
    ensures forall x :: x in OrdenarEntradas(es) <==> x in es
  {
    if |es| == 0 {
    } else {
      assert es == [es[0]] + es[1..];
      OrdenarGuarda(es[1..]);
      InsertarGuarda(es[0], OrdenarEntradas(es[1..]));
    }
  }

  lemma {:induction false} ExactasSon(es: seq<Entrada>, monto: u64)
    ensures forall x :: x in Exactas(es, monto) <==> x in es && x.monto == monto
  {
    if |es| == 0 {
    } else {
      assert es == [es[0]] + es[1..];
      ExactasSon(es[1..], monto);
    }
  }
}
