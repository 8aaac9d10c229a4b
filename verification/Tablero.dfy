/** The offer board (`merge_store`, `retiradas_de` and `tablero` in dht.rs, retiro.rs):
    offers spread as a union of copies, withdrawals as tombstones that beat them. */
module Tablero {
  import opened Base
  import opened Obras

  /** A tombstone. `prueba` is the secret whose hash the offer committed to. */
  datatype Retiro = Retiro(ofertaId: string, autorId: string, cuando: int, prueba: string)

  /** Hex-decoding, SHA-256 and hex-encoding of a proof; None if it is not hex. Nothing is
      assumed about it. */
  type Huella = string -> Option<string>

  const MAX_RETIRADAS := 512

  predicate ValePara(h: Huella, r: Retiro, o: Oferta) {
    && r.ofertaId == o.id && r.autorId == o.mandante.id
    && (o.retiroHash == "" || h(r.prueba) == Some(o.retiroHash))
  }

  /** Between two copies of one offer, the one that still has its commitment wins. */
  predicate MejorQue(o: Oferta, otra: Oferta) {
    o.retiroHash != "" && otra.retiroHash == ""
  }

  predicate Muerta(h: Huella, rs: set<Retiro>, o: Oferta) {
    exists r <- rs :: ValePara(h, r, o)
  }

  function Conjunto<T>(s: seq<T>): set<T> {
    set x | x in s
  }

  function SinRetiradas(h: Huella, os: seq<Oferta>, rs: seq<Retiro>): (v: seq<Oferta>)
    ensures forall o :: o in v <==> o in os && !Muerta(h, Conjunto(rs), o)
    ensures |v| <= |os| && (|v| == |os| ==> v == os)
  {
    if |os| == 0 then []
    else
      var resto := SinRetiradas(h, os[..|os| - 1], rs);
      if Muerta(h, Conjunto(rs), os[|os| - 1]) then resto else resto + [os[|os| - 1]]
  }

  // ----- merging offers

  function IndiceDe(os: seq<Oferta>, id: string): (k: nat)
    ensures k <= |os| && (k < |os| ==> os[k].id == id) && forall j :: 0 <= j < k ==> os[j].id != id
  {
    if |os| == 0 then 0 else if os[0].id == id then 0 else 1 + IndiceDe(os[1..], id)
  }

  function PonerOferta(a: seq<Oferta>, o: Oferta): seq<Oferta> {
    var k := IndiceDe(a, o.id);
    if k == |a| then a + [o] else if MejorQue(o, a[k]) then a[k := o] else a
  }

  function PonerOfertas(a: seq<Oferta>, b: seq<Oferta>): seq<Oferta> {
    if |b| == 0 then a else PonerOferta(PonerOfertas(a, b[..|b| - 1]), b[|b| - 1])
  }

  // ----- merging tombstones

  predicate MismaClave(x: Retiro, r: Retiro) {
    x.ofertaId == r.ofertaId && x.autorId == r.autorId && x.prueba == r.prueba
  }

  predicate ConIds(r: Retiro) {
    r.ofertaId != "" && r.autorId != ""
  }

  function PonerRetiro(a: seq<Retiro>, r: Retiro): seq<Retiro> {
    if !ConIds(r) || exists x <- a :: MismaClave(x, r) then a else a + [r]
  }

  function PonerRetiros(a: seq<Retiro>, b: seq<Retiro>): seq<Retiro> {
    if |b| == 0 then a else PonerRetiro(PonerRetiros(a, b[..|b| - 1]), b[|b| - 1])
  }

  predicate Descendente(s: seq<Retiro>) {
    forall i, j :: 0 <= i < j < |s| ==> s[i].cuando >= s[j].cuando
  }

  /** `x` goes after the newer and before the others, so equal times keep their order. */
  function Insertar(x: Retiro, s: seq<Retiro>): seq<Retiro> {
    if |s| == 0 then [x]
    else if s[0].cuando <= x.cuando then [x] + s
    else [s[0]] + Insertar(x, s[1..])
  }

  lemma {:induction false} InsertarPermuta(x: Retiro, s: seq<Retiro>)
    ensures multiset(Insertar(x, s)) == multiset(s) + multiset{x}
  {
    if |s| == 0 {
    } else {
      assert s == [s[0]] + s[1..];
      if s[0].cuando > x.cuando {
        InsertarPermuta(x, s[1..]);
      }
    }
  }

  lemma {:induction false} InsertarOrdena(x: Retiro, s: seq<Retiro>)
    requires Descendente(s)
    ensures Descendente(Insertar(x, s))
  {
    if |s| > 0 && s[0].cuando > x.cuando {
      var r := Insertar(x, s[1..]);
      InsertarOrdena(x, s[1..]);
      assert r[0] == x || r[0] == s[1];
    }
  }

  /** `sort_by` on descending time: a stable sort. */
  function Ordenar(s: seq<Retiro>): seq<Retiro> {
    if |s| == 0 then [] else Insertar(s[0], Ordenar(s[1..]))
  }

  lemma {:induction false} OrdenarOrdena(s: seq<Retiro>)
    ensures Descendente(Ordenar(s)) && multiset(Ordenar(s)) == multiset(s)
  {
    if |s| == 0 {
    } else {
      assert s == [s[0]] + s[1..];
      OrdenarOrdena(s[1..]);
      InsertarOrdena(s[0], Ordenar(s[1..]));
      InsertarPermuta(s[0], Ordenar(s[1..]));
    }
  }

  function Recortar(s: seq<Retiro>): seq<Retiro> {
    if |s| > MAX_RETIRADAS then s[..MAX_RETIRADAS] else s
  }

  function MasNuevos(a: seq<Retiro>, b: seq<Retiro>): seq<Retiro> {
    Recortar(Ordenar(PonerRetiros(a, b)))
  }

  // ----- the store

  datatype Entrega = Ofertas(os: seq<Oferta>) | Retiros(rs: seq<Retiro>)

  datatype Estado = Estado(tablero: seq<Oferta>, retiradas: seq<Retiro>)

  /** One delivery: an offer list or a tombstone list merged into the store. */
  function Recibir(h: Huella, s: Estado, e: Entrega): Estado {
    match e
    case Ofertas(os) => s.(tablero := SinRetiradas(h, PonerOfertas(s.tablero, os), s.retiradas))
    case Retiros(rs) =>
      var a := MasNuevos(s.retiradas, rs);
      Estado(SinRetiradas(h, s.tablero, a), a)
  }

  class Almacen {
    const h: Huella
    var tablero: seq<Oferta>
    var retiradas: seq<Retiro>

    constructor (huella: Huella)
      ensures h == huella && tablero == [] && retiradas == []
    {
      h, tablero, retiradas := huella, [], [];
    }

    method MergeOfertas(b: seq<Oferta>)
      modifies this
      ensures Estado(tablero, retiradas) == Recibir(h, old(Estado(tablero, retiradas)), Ofertas(b))
    {
      var a := tablero;
      var k := 0;
      while k < |b|
        invariant 0 <= k <= |b| && a == PonerOfertas(tablero, b[..k])
        invariant tablero == old(tablero) && retiradas == old(retiradas)
      {
        var o := b[k];
        var j := 0;
        while j < |a| && a[j].id != o.id
          invariant 0 <= j <= |a| && forall i :: 0 <= i < j ==> a[i].id != o.id
        {
          j := j + 1;
        }
        assert j == IndiceDe(a, o.id);
        if j == |a| {
          a := a + [o];
        } else if MejorQue(o, a[j]) {
          a := a[j := o];
        }
        assert b[..k + 1][..k] == b[..k];
        k := k + 1;
      }
      assert b[..k] == b;
      tablero := SinRetiradas(h, a, retiradas);
    }

    method MergeRetiradas(b: seq<Retiro>)
      modifies this
      ensures Estado(tablero, retiradas) == Recibir(h, old(Estado(tablero, retiradas)), Retiros(b))
    {
      var a := retiradas;
      var k := 0;
      while k < |b|
        invariant 0 <= k <= |b| && a == PonerRetiros(retiradas, b[..k])
        invariant tablero == old(tablero) && retiradas == old(retiradas)
      {
        var r := b[k];
        assert b[..k + 1][..k] == b[..k];
        k := k + 1;
        if !ConIds(r) {
          continue;
        }
        if !exists x <- a :: MismaClave(x, r) {
          a := a + [r];
        }
      }
      assert b[..k] == b;
      a := Ordenar(a);
      a := Recortar(a);
      retiradas := a;
      var antes := |tablero|;
      var tab := SinRetiradas(h, tablero, a);
      if |tab| != antes {
        tablero := tab;
      }
    }

    /** The offers on show: those of the board that no stored tombstone kills, in its order. */
    method Visibles() returns (v: seq<Oferta>)
      ensures v == SinRetiradas(h, tablero, retiradas)
      ensures forall o :: o in v <==> o in tablero && forall r <- retiradas :: !ValePara(h, r, o)
      ensures (forall o <- tablero, r <- retiradas :: !ValePara(h, r, o)) ==> v == tablero
    {
      NadieMuere(h, tablero, retiradas);
      v := SinRetiradas(h, tablero, retiradas);
    }
  }

  lemma {:induction false} NadieMuere(h: Huella, os: seq<Oferta>, rs: seq<Retiro>)
    ensures (forall o <- os :: !Muerta(h, Conjunto(rs), o)) ==> SinRetiradas(h, os, rs) == os
    ensures forall o :: Muerta(h, Conjunto(rs), o) <==> exists r <- rs :: ValePara(h, r, o)
  {
    if |os| == 0 {
    } else {
      NadieMuere(h, os[..|os| - 1], rs);
      assert os == os[..|os| - 1] + [os[|os| - 1]];
    }
  }

  // ----- withdrawing one's own offer

  predicate EnTablero(ofertaId: string, obras: seq<Obra>) {
    !exists o <- obras :: o.id == ofertaId && o.estado != Rechazada
  }

  /** `prueba` is the secret derived from the author's key, empty without one. */
  function RetirarOferta(h: Huella, o: Oferta, yo: string, prueba: string, obras: seq<Obra>, ahora: int)
    : Result<Retiro, Error>
  {
    if o.mandante.id != yo then Err(NoEsTuya)
    else if !EnTablero(o.id, obras) then Err(OfertaTomada)
    else
      var r := Retiro.Retiro(o.id, yo, ahora, prueba);
      if ValePara(h, r, o) then Ok(r) else Err(NoEsTuya)
  }

  /** A withdrawal goes out only if the rest of the network will take it: the offer is one's
      own, nobody holds a live job for it, and the proof opens its commitment. */
  lemma RetiroSaleSiVale(h: Huella, o: Oferta, yo: string, prueba: string, obras: seq<Obra>, ahora: int)
    ensures var r := RetirarOferta(h, o, yo, prueba, obras, ahora);
      && (r.Ok? <==>
            && o.mandante.id == yo && (o.retiroHash == "" || h(prueba) == Some(o.retiroHash))
            && forall x <- obras :: x.id == o.id ==> x.estado == Rechazada)
      && (r.Ok? ==> Muerta(h, {r.valor}, o))
  {
  }
}
