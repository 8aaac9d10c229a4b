/** Money conservation: through any run of one device's actions the job's price is the sum
    of what its stages hold. */
module Dinero {
  import opened Base
  import opened Texto
  import Precio
  import opened Cuotas
  import opened Partidas
  import opened Obras
  import opened Acuerdo
  import opened FusionObras
  import opened Acciones

  function SumaCapital(ps: seq<Partida>, garantia: u64): nat {
    if |ps| == 0 then 0 else SumaCapital(ps[..|ps| - 1], garantia) + ps[|ps| - 1].Capital(garantia)
  }

  /** The price is what the stages hold, and the count is the number of stages. */
  predicate Cuadra(o: Obra) {
    Contada(o) && SumaCapital(o.partidas, o.garantia) == o.trabajo
  }

  lemma {:induction false} SumaPorMonto(ps: seq<Partida>, qs: seq<Partida>, garantia: u64)
    requires |ps| == |qs| && forall k :: 0 <= k < |ps| ==> ps[k].monto == qs[k].monto
    ensures SumaCapital(ps, garantia) == SumaCapital(qs, garantia)
  {
    if |ps| == 0 {
    } else {
      SumaPorMonto(ps[..|ps| - 1], qs[..|qs| - 1], garantia);
    }
  }

  lemma {:induction false} SumaDeIguales(ps: seq<Partida>, garantia: u64)
    requires forall k :: 0 <= k < |ps| ==> ps[k].monto == 0
    ensures SumaCapital(ps, garantia) == |ps| * garantia
  {
    if |ps| == 0 {
    } else {
      SumaDeIguales(ps[..|ps| - 1], garantia);
      assert |ps| * garantia == (|ps| - 1) * garantia + garantia;
    }
  }

  /** What keeps the books balanced: a pending extra stage has an amount, and whatever the
      principal may still answer to a counter offer divides the price exactly. */
  predicate Libro(o: Obra) {
    && Cuadra(o)
    && (o.extra.Some? ==> o.extra.value.monto > 0)
    && (o.estado == Contra ==>
          && (o.contra.Some? ==> CubreTodo(o.contra.value, o.trabajo))
          && RechazoEntra(o))
  }

  predicate CubreTodo(acc: Aceptacion, trabajo: u64) {
    |acc.detalles| == acc.nPartidas && acc.nPartidas * acc.garantia == trabajo
  }

  /** The published bond, which a rejection goes back to, gives a 32-bit stage count. */
  predicate RechazoEntra(o: Obra) {
    var g := if o.garantiaPublicada > 0 then o.garantiaPublicada else o.garantia;
    NPartidas(o.trabajo, g).Ok? ==> o.trabajo / g <= U32_MAX
  }

  /** A new deal balances exactly when the number of stages fits its 32-bit count. */
  lemma NuevaObraCuadra(oferta: Oferta, contratista: Persona, garantia: u64, detalles: seq<string>, ahora: int)
    requires Aceptar(oferta, contratista, garantia, detalles).Ok?
    ensures var r := DesdeOferta(oferta, Aceptar(oferta, contratista, garantia, detalles).valor, ahora);
      && r.Ok?
      && (Cuadra(r.valor) <==> oferta.trabajo / garantia <= U32_MAX)
      && (Cuadra(r.valor) && RechazoEntra(r.valor) ==> Libro(r.valor))
  {
    var acc := Aceptar(oferta, contratista, garantia, detalles).valor;
    var o := DesdeOferta(oferta, acc, ahora).valor;
    SumaDeIguales(o.partidas, o.garantia);
    NPartidasCubreElTrabajo(oferta.trabajo, garantia);
  }

  // ----- one action

  lemma ContraCuadra(o: Obra, a: Accion, quien: Persona, ahora: int)
    requires Libro(o) && Permitida(o, a) && (a.Confirma? || a.Rechaza?)
    ensures Libro(Ejecutar(o, a, quien, ahora).obra)
  {
    var r := Ejecutar(o, a, quien, ahora).obra;
    if Ejecutar(o, a, quien, ahora).error.None? {
      if a.Confirma? {
        SumaDeIguales(r.partidas, r.garantia);
      } else {
        var g := if o.garantiaPublicada > 0 then o.garantiaPublicada else o.garantia;
        if NPartidas(o.trabajo, g).Ok? {
          NPartidasCubreElTrabajo(o.trabajo, g);
          SumaDeIguales(r.partidas, r.garantia);
        }
      }
    }
  }

  predicate DePartida(a: Accion) {
    a.Propone? || a.Fondea? || a.Cancela? || a.Termina? || a.Contraoferta? || a.Paga? || a.Edita?
  }

  lemma PartidaMantieneMontos(o: Obra, a: Accion, quien: Persona, ahora: int)
    requires DePartida(a)
    ensures var r := Ejecutar(o, a, quien, ahora).obra;
      && r.trabajo == o.trabajo && r.garantia == o.garantia && r.garantiaPublicada == o.garantiaPublicada
      && r.nPartidas == o.nPartidas && |r.partidas| == |o.partidas| && r.extra == o.extra && r.contra == o.contra
      && (r.estado == Contra ==> o.estado == Contra)
      && forall k :: 0 <= k < |o.partidas| ==> r.partidas[k].monto == o.partidas[k].monto
  {
    if a.Termina? || a.Contraoferta? || a.Paga? {
      JugadaMantieneMontos(o, a, quien, ahora);
    }
  }

  lemma JugadaMantieneMontos(o: Obra, a: Accion, quien: Persona, ahora: int)
    requires a.Termina? || a.Contraoferta? || a.Paga?
    ensures var r := Ejecutar(o, a, quien, ahora).obra;
      && r.trabajo == o.trabajo && r.garantia == o.garantia && r.garantiaPublicada == o.garantiaPublicada
      && r.nPartidas == o.nPartidas && |r.partidas| == |o.partidas| && r.extra == o.extra && r.contra == o.contra
      && (r.estado == Contra ==> o.estado == Contra)
      && forall k :: 0 <= k < |o.partidas| ==> r.partidas[k].monto == o.partidas[k].monto
  {
  }

  lemma ExtraCuadra(o: Obra, a: Accion, quien: Persona, ahora: int)
    requires Libro(o) && Permitida(o, a) && a.AceptaExtra?
    ensures Libro(Ejecutar(o, a, quien, ahora).obra)
  {
    var s := AceptarExtra(o, quien, ahora);
    if s.error.None? {
      ExtraEntra(o, s.obra, quien, ahora);
      ExtraSuma(o, s.obra, o.extra.value.monto);
    } else {
      assert s.obra == o || s.obra == o.(extra := None);
    }
  }

  lemma ExtraEntra(o: Obra, r: Obra, quien: Persona, ahora: int)
    requires Libro(o) && Permitida(o, AceptaExtra)
    requires AceptarExtra(o, quien, ahora).error.None? && r == AceptarExtra(o, quien, ahora).obra
    ensures o.extra.Some? && r.extra.None? && r.estado != Contra && Contada(r) && r.garantia == o.garantia
    ensures |r.partidas| == |o.partidas| + 1 && r.partidas[..|o.partidas|] == o.partidas
    ensures r.partidas[|o.partidas|].monto == o.extra.value.monto > 0
    ensures r.trabajo == o.trabajo + o.extra.value.monto
  {
  }

  lemma ExtraSuma(o: Obra, r: Obra, monto: u64)
    requires |r.partidas| == |o.partidas| + 1 && r.partidas[..|o.partidas|] == o.partidas && r.garantia == o.garantia
    requires r.partidas[|o.partidas|].monto == monto > 0
    ensures SumaCapital(r.partidas, r.garantia) == SumaCapital(o.partidas, o.garantia) + monto
  {
  }

  lemma OtrasCuadran(o: Obra, a: Accion, quien: Persona, ahora: int)
    requires Libro(o) && Permitida(o, a)
    requires !DePartida(a) && !a.Confirma? && !a.Rechaza? && !a.AceptaExtra?
    ensures Libro(Ejecutar(o, a, quien, ahora).obra)
  {
    if a.ProponeExtra? || a.RechazaExtra? {
      ExtraSinAceptarCuadra(o, a, quien, ahora);
    }
  }

  lemma ExtraSinAceptarCuadra(o: Obra, a: Accion, quien: Persona, ahora: int)
    requires Libro(o) && (a.ProponeExtra? || a.RechazaExtra?)
    ensures Libro(Ejecutar(o, a, quien, ahora).obra)
  {
  }

  /** Each action keeps the books, whether it succeeds or is refused. */
  lemma AccionCuadra(o: Obra, a: Accion, quien: Persona, ahora: int)
    requires Libro(o) && Permitida(o, a)
    ensures Libro(Ejecutar(o, a, quien, ahora).obra)
  {
    if a.Confirma? || a.Rechaza? {
      ContraCuadra(o, a, quien, ahora);
    } else if DePartida(a) {
      var r := Ejecutar(o, a, quien, ahora).obra;
      PartidaMantieneMontos(o, a, quien, ahora);
      SumaPorMonto(o.partidas, r.partidas, o.garantia);
    } else if a.AceptaExtra? {
      ExtraCuadra(o, a, quien, ahora);
    } else {
      OtrasCuadran(o, a, quien, ahora);
    }
  }

  // ----- a whole run

  datatype Acto = Acto(accion: Accion, quien: Persona, ahora: int)

  /** What is left of a job after a run; the interface offers nothing that is not allowed. */
  function Correr(o: Obra, actos: seq<Acto>): Obra {
    if |actos| == 0 then o
    else
      var r, x := Correr(o, actos[..|actos| - 1]), actos[|actos| - 1];
      if Permitida(r, x.accion) then Ejecutar(r, x.accion, x.quien, x.ahora).obra else r
  }

  lemma {:induction false} CorrerCuadra(o: Obra, actos: seq<Acto>)
    requires Libro(o)
    ensures Libro(Correr(o, actos))
  {
    if |actos| == 0 {
    } else {
      var r, x := Correr(o, actos[..|actos| - 1]), actos[|actos| - 1];
      CorrerCuadra(o, actos[..|actos| - 1]);
      if Permitida(r, x.accion) {
        AccionCuadra(r, x.accion, x.quien, x.ahora);
      }
    }
  }

  /** From a published offer on, whatever the two people do, the price of the job is exactly
      what its stages hold. */
  lemma ElPrecioSeConserva(oferta: Oferta, contratista: Persona, garantia: u64, detalles: seq<string>, ahora: int,
                           actos: seq<Acto>)
    requires Aceptar(oferta, contratista, garantia, detalles).Ok?
    requires oferta.trabajo / garantia <= U32_MAX
    requires oferta.garantiaSugerida > 0 && oferta.trabajo / oferta.garantiaSugerida <= U32_MAX
    ensures var acc := Aceptar(oferta, contratista, garantia, detalles).valor;
      DesdeOferta(oferta, acc, ahora).Ok? && Cuadra(Correr(DesdeOferta(oferta, acc, ahora).valor, actos))
  {
    NuevaObraCuadra(oferta, contratista, garantia, detalles, ahora);
    CorrerCuadra(DesdeOferta(oferta, Aceptar(oferta, contratista, garantia, detalles).valor, ahora).valor, actos);
  }

  // ----- without the guards of the interface

  /** Confirming a counter offer keeps the books, whatever happened meanwhile, exactly when
      the offer still covers the price of the job. */
  lemma ConfirmarCuadraSi(o: Obra, ahora: int)
    requires o.contra.Some?
    ensures ConfirmarContra(o, o.mandante.id, ahora).error.None?
    ensures Cuadra(ConfirmarContra(o, o.mandante.id, ahora).obra) <==> CubreTodo(o.contra.value, o.trabajo)
  {
    var r := ConfirmarContra(o, o.mandante.id, ahora).obra;
    SumaDeIguales(r.partidas, r.garantia);
  }

  /** Rejecting a counter offer, whatever happened before. If the published bond divides the
      price, all locks, notes and extra stages are gone, and the books balance exactly when the
      count fits 32 bits; if it does not, stages and books stay as they were. */
  lemma RechazarSinGuarda(o: Obra, ahora: int)
    requires o.contra.Some?
    ensures var r := RechazarContra(o, o.mandante.id, ahora);
      var g := if o.garantiaPublicada > 0 then o.garantiaPublicada else o.garantia;
      && r.error.None?
      && (NPartidas(o.trabajo, g).Ok? ==> !r.obra.HayRiesgo() && (Cuadra(r.obra) <==> RechazoEntra(o)))
      && (NPartidas(o.trabajo, g).Err? ==> r.obra.partidas == o.partidas && (Cuadra(r.obra) <==> Cuadra(o)))
  {
    var r := RechazarContra(o, o.mandante.id, ahora).obra;
    var g := if o.garantiaPublicada > 0 then o.garantiaPublicada else o.garantia;
    if NPartidas(o.trabajo, g).Ok? {
      NPartidasCubreElTrabajo(o.trabajo, g);
      SumaDeIguales(r.partidas, r.garantia);
    }
  }

  /** Accepting an extra stage keeps the count exactly when it has room. */
  lemma AceptarExtraSinGuarda(o: Obra, quien: Persona, ahora: int)
    requires Contada(o) && AceptarExtra(o, quien, ahora).error.None?
    ensures Contada(AceptarExtra(o, quien, ahora).obra) <==> o.nPartidas < U32_MAX
  {
  }

  /** An unguarded lock proposal always leaves a job under way: it takes a finished job back
      exactly when it was abandoned or closed, and a waiting counter offer can no longer be
      answered. */
  lemma ProponerSinGuarda(o: Obra, i: nat, quien: Persona, precio: Option<Precio.PrecioFijado>, ahora: int)
    requires EncerrarProponer(o, i, quien, precio, ahora).error.None?
    ensures var r := EncerrarProponer(o, i, quien, precio, ahora).obra;
      && (r.estado.Rango() >= o.estado.Rango() <==> o.estado != Abandonada && o.estado != Cerrada)
      && !Permitida(r, Confirma) && !Permitida(r, Rechaza)
  {
  }

  /** The guard on a waiting counter offer is needed. The actions alone let a stage be locked
      and an extra stage be accepted meanwhile, and a late confirmation then forgets the
      extra stage but keeps its price. */
  lemma SinGuardaNoCuadra(m: Persona, c: Persona, ahora: int)
    requires m.id != c.id
    ensures exists o: Obra ::
      && Libro(o) && o.estado == Contra
      && var o1 := EncerrarProponer(o, 0, m, None, ahora);
         var o2 := ProponerExtra(o1.obra, m, "x", 5, ahora);
         var o3 := AceptarExtra(o2.obra, c, ahora);
         var o4 := ConfirmarContra(o3.obra, m.id, ahora);
         o1.error == o2.error == o3.error == o4.error == None && !Cuadra(o4.obra)
  {
    var o := EjemploContra(m, c);
    SumaDeIguales(o.partidas, 2);
    var o1 := EncerrarProponer(o, 0, m, None, ahora).obra;
    EjemploExtra(o1, m, c, ahora);
    var o3 := AceptarExtra(ProponerExtra(o1, m, "x", 5, ahora).obra, c, ahora).obra;
    SumaDeIguales(ConfirmarContra(o3, m.id, ahora).obra.partidas, 2);
  }

  /** Two stages of 2 for a price of 4, with the same terms waiting as a counter offer. */
  function EjemploContra(m: Persona, c: Persona): Obra {
    var p := Nueva("", 0);
    Obra.Obra("", "", 4, 2, 1, 2, m, c, Contra, [p, p], Some(Aceptacion("", c, 2, 2, ["", ""])), None, 0, 0, None, 0,
      Precio.Unidades)
  }

  lemma EjemploExtra(o1: Obra, m: Persona, c: Persona, ahora: int)
    requires m.id != c.id && o1 == EncerrarProponer(EjemploContra(m, c), 0, m, None, ahora).obra
    ensures EncerrarProponer(EjemploContra(m, c), 0, m, None, ahora).error == None
    ensures var o2 := ProponerExtra(o1, m, "x", 5, ahora);
      var o3 := AceptarExtra(o2.obra, c, ahora);
      && o2.error == o3.error == None && o3.obra.trabajo == 9
      && o3.obra.contra == Some(Aceptacion("", c, 2, 2, ["", ""])) && o3.obra.mandante == m
  {
    assert Juntado("", "x", false) == "x" && Juntar("x") == "x";
  }
}
